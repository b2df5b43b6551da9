// Whole DNS messages: the query a resolver sends and the reply a server port formats
// (section 4.1 of RFC 1035).
module Messages {
  import opened Bytes
  import opened Names
  import opened NameWriter

  const BUF_LEN := 1500
  const MAX_UDP_LEN := 512
  const CLASS_INET := 1

  // ---------- Queries ----------

  function RequestLen(nameLen: nat): nat {
    96 + nameLen + 2 + 4
  }

  function RequestHeader(transId: nat): (b: seq<Byte>)
    ensures |b| == 12
  {
    U16(transId) + U16(0x0100) + U16(1) + U16(0) + U16(0) + U16(0)
  }

  // evdns_request_data_build into a buffer as large as evdns_request_len asks for.
  function Request(name: seq<Byte>, transId: nat, qtype: nat): Option<seq<Byte>> {
    match EncodeName(name, 12, RequestLen(|name|), [], false, {})
    case Failed(_, _, _) => None
    case Written(bytes, _) => Some(RequestHeader(transId) + bytes + U16(qtype) + U16(CLASS_INET))
  }

  // A query can be built exactly for names of at most 255 bytes with labels of at most 63, and then
  // holds the name at offset 12, followed by the type and the class.
  lemma RequestReadsBack(name: seq<Byte>, transId: nat, qtype: nat)
    requires NoNul(name)
    ensures Request(name, transId, qtype).Some? <==> |name| <= 255 && ShortLabels(name)
    ensures Request(name, transId, qtype).Some? ==>
      var m := Request(name, transId, qtype).value;
      && 17 <= |m| <= RequestLen(|name|)
      && At16(m, 0) == transId % 0x1_0000 && At16(m, 2) == 0x0100
      && At16(m, 4) == 1 && At16(m, 6) == At16(m, 8) == At16(m, 10) == 0
      && NameAt(m, 12).Some?
      && NameAt(m, 12).value.labels == Labels(name)
      && (Dotted(name) ==> NameFrom(m, 12, name, |m| - 4) && Text(m, 12) == name)
      && At16(m, |m| - 4) == qtype % 0x1_0000 && At16(m, |m| - 2) == 1
  {
    hide Encode, ShortLabels, U16, At16, RequestHeader;
    var len := RequestLen(|name|);
    if |name| <= 255 && ShortLabels(name) {
      EncodeFits(name, 12, len, [], false, {});
    }
    if Request(name, transId, qtype).Some? {
      PlainNeedsShortLabels(name, 12, len, [], {});
      EncodeFits(name, 12, len, [], false, {});
      var h := RequestHeader(transId);
      EncodeThenDecode(h, name, len, [], false, {});
      EncodeBounds(name, 12, len, [], false, {});
      var bytes := Encode(name, 12, len, [], false, {}).bytes;
      var tail := U16(qtype) + U16(CLASS_INET);
      var m := Request(name, transId, qtype).value;
      assert m == h + bytes + tail;
      NameAtLonger(h + bytes, tail, 12);
      RequestFields(transId, qtype, bytes);
      TextIsName(name);
    }
  }

  lemma RequestFields(transId: nat, qtype: nat, bytes: seq<Byte>)
    ensures var m := RequestHeader(transId) + bytes + U16(qtype) + U16(CLASS_INET);
      && At16(m, 0) == transId % 0x1_0000 && At16(m, 2) == 0x0100
      && At16(m, 4) == 1 && At16(m, 6) == At16(m, 8) == At16(m, 10) == 0
      && At16(m, |m| - 4) == qtype % 0x1_0000 && At16(m, |m| - 2) == 1
  {
    hide At16;
    var h, none: seq<Byte> := RequestHeader(transId), [];
    RequestHeaderFields(transId);
    FieldsStay(h, bytes + U16(qtype) + U16(CLASS_INET));
    assert h + bytes + U16(qtype) + U16(CLASS_INET) == h + (bytes + U16(qtype) + U16(CLASS_INET));
    FieldIsRead(h + bytes, qtype, U16(CLASS_INET));
    FieldIsRead(h + bytes + U16(qtype), CLASS_INET, none);
    assert h + bytes + U16(qtype) + U16(CLASS_INET) + none == h + bytes + U16(qtype) + U16(CLASS_INET);
  }

  lemma RequestHeaderFields(transId: nat)
    ensures var h := RequestHeader(transId);
      && At16(h, 0) == transId % 0x1_0000 && At16(h, 2) == 0x0100
      && At16(h, 4) == 1 && At16(h, 6) == At16(h, 8) == At16(h, 10) == 0
  {
  }

  // ---------- Replies ----------

  datatype Question = Question(name: seq<Byte>, qtype: nat, qclass: nat)
  datatype Rdata = NameData(name: seq<Byte>) | RawData(bytes: seq<Byte>)
  datatype Record = Record(name: seq<Byte>, rtype: nat, rclass: nat, ttl: nat, data: Rdata)

  predicate QuestionOk(q: Question) {
    NoNul(q.name) && q.qtype < 0x10000 && q.qclass < 0x10000
  }

  predicate RecordOk(r: Record) {
    && NoNul(r.name) && r.rtype < 0x10000 && r.rclass < 0x10000 && r.ttl < 0x1_0000_0000
    && match r.data
       case NameData(name) => NoNul(name)
       case RawData(bytes) => |bytes| < 0x10000
  }

  // The message so far and its table of suffixes; or what stands in front of the first thing that could not be
  // stored; or the error code that ends the call.
  datatype Out = Going(bytes: seq<Byte>, table: seq<Entry>) | Overflow(bytes: seq<Byte>) | Error(code: int)

  // A field goes in if there is room for it.
  function IfRoom(bytes: seq<Byte>, field: seq<Byte>): (r: seq<Byte>)
    ensures bytes <= r && |r| <= |bytes| + |field| && (|bytes| <= BUF_LEN ==> |r| <= BUF_LEN) && (|bytes| > BUF_LEN ==> r == bytes)
  {
    if |bytes| + |field| > BUF_LEN then bytes else bytes + field
  }

  function PutQuestion(o: Out, q: Question, oom: set<nat>): Out {
    if !o.Going? then o else
    match EncodeName(q.name, |o.bytes|, BUF_LEN, o.table, true, oom)
    case Failed(code, _, _) => Error(code)
    case Written(bytes, table) =>
      if |o.bytes| + |bytes| + 4 > BUF_LEN then Overflow(IfRoom(o.bytes + bytes, U16(q.qtype)))
      else Going(o.bytes + bytes + U16(q.qtype) + U16(q.qclass), table)
  }

  // The owner name of a record and its type, class and time to live.
  function PutOwner(o: Out, r: Record, oom: set<nat>): Out {
    if !o.Going? then o else
    match EncodeName(r.name, |o.bytes|, BUF_LEN, o.table, true, oom)
    case Failed(_, bytes, _) => Overflow(o.bytes + bytes)
    case Written(bytes, table) =>
      if |o.bytes| + |bytes| + 8 > BUF_LEN then Overflow(IfRoom(IfRoom(o.bytes + bytes, U16(r.rtype)), U16(r.rclass)))
      else Going(o.bytes + bytes + U16(r.rtype) + U16(r.rclass) + U32(r.ttl), table)
  }

  // The data of a record behind its length, which for a name is known only once it is written.
  function PutData(o: Out, data: Rdata, oom: set<nat>): Out {
    if !o.Going? then o else
    match data
    case NameData(name) =>
      (match EncodeName(name, |o.bytes| + 2, BUF_LEN, o.table, true, oom)
       case Failed(_, _, _) => Overflow(o.bytes)
       case Written(bytes, table) => Going(o.bytes + U16(|bytes|) + bytes, table))
    case RawData(bytes) =>
      if |o.bytes| + 2 + |bytes| > BUF_LEN then Overflow(IfRoom(o.bytes, U16(|bytes|)))
      else Going(o.bytes + U16(|bytes|) + bytes, o.table)
  }

  function PutRecord(o: Out, r: Record, oom: set<nat>): Out {
    PutData(PutOwner(o, r, oom), r.data, oom)
  }

  function PutQuestions(o: Out, qs: seq<Question>, n: nat, oom: set<nat>): Out
    requires n <= |qs|
  {
    if n == 0 then o else PutQuestion(PutQuestions(o, qs, n - 1, oom), qs[n - 1], oom)
  }

  function PutRecords(o: Out, rs: seq<Record>, n: nat, oom: set<nat>): Out
    requires n <= |rs|
  {
    if n == 0 then o else PutRecord(PutRecords(o, rs, n - 1, oom), rs[n - 1], oom)
  }

  // ---------- What a reader finds ----------

  // Name `name` starts at a, and if a reader can tell where it ends, it ends at b.
  ghost predicate NameFrom(m: seq<Byte>, a: nat, name: seq<Byte>, b: nat) {
    && NameAt(m, a).Some?
    && NameAt(m, a).value.labels == Labels(name)
    && (NoInnerEmptyLabel(name) ==> NameAt(m, a).value.next == b)
  }

  ghost predicate QuestionAt(m: seq<Byte>, a: nat, q: Question, b: nat) {
    && a + 5 <= b <= |m|
    && NameFrom(m, a, q.name, b - 4)
    && At16(m, b - 4) == q.qtype % 0x1_0000 && At16(m, b - 2) == q.qclass % 0x1_0000
  }

  ghost predicate DataAt(m: seq<Byte>, a: nat, data: Rdata, b: nat) {
    && a + 2 <= b <= |m|
    && At16(m, a) == (b - a - 2) % 0x1_0000
    && match data
       case NameData(name) => NameFrom(m, a + 2, name, b)
       case RawData(bytes) => m[a + 2..b] == bytes
  }

  ghost predicate RecordAt(m: seq<Byte>, a: nat, r: Record, b: nat) {
    exists k: nat :: OwnerAt(m, a, r, k) && DataAt(m, k, r.data, b)
  }

  ghost predicate OwnerAt(m: seq<Byte>, a: nat, r: Record, b: nat) {
    && a + 9 <= b <= |m|
    && NameFrom(m, a, r.name, b - 8)
    && At16(m, b - 8) == r.rtype % 0x1_0000 && At16(m, b - 6) == r.rclass % 0x1_0000 && At32(m, b - 4) == r.ttl % 0x1_0000_0000
  }

  // A message under construction: every table entry can be pointed to.
  ghost predicate Sound(o: Out) {
    o.Going? ==> TableValid(o.bytes, o.table) && |o.bytes| <= BUF_LEN + 1
  }

  lemma NameFromLonger(m: seq<Byte>, tail: seq<Byte>, a: nat, name: seq<Byte>, b: nat)
    requires NameFrom(m, a, name, b)
    ensures NameFrom(m + tail, a, name, b)
  {
    NameAtLonger(m, tail, a);
  }

  // A name written after a sound message, and some bytes after it.
  lemma NameWritten(m: seq<Byte>, table: seq<Entry>, name: seq<Byte>, tail: seq<Byte>, oom: set<nat>)
    requires TableValid(m, table)
    requires EncodeName(name, |m|, BUF_LEN, table, true, oom).Written?
    ensures var w := EncodeName(name, |m|, BUF_LEN, table, true, oom);
      && 1 <= |w.bytes|
      && NameFrom(m + w.bytes + tail, |m|, name, |m| + |w.bytes|)
      && TableValid(m + w.bytes + tail, w.table)
  {
    var w := EncodeName(name, |m|, BUF_LEN, table, true, oom);
    EncodeBounds(name, |m|, BUF_LEN, table, true, oom);
    UsableIfValid(m, table, name);
    EncodeThenDecode(m, name, BUF_LEN, table, true, oom);
    NameFromLonger(m + w.bytes, tail, |m|, name, |m| + |w.bytes|);
    TableGrown(m, w.bytes, table, w.table);
    TableValidLonger(m + w.bytes, tail, w.table);
  }

  lemma UsableIfValid(m: seq<Byte>, table: seq<Entry>, name: seq<Byte>)
    requires TableValid(m, table)
    ensures Usable(m, table, name)
  {
  }

  lemma TableGrown(m: seq<Byte>, bytes: seq<Byte>, table: seq<Entry>, after: seq<Entry>)
    requires TableValid(m, table) && table <= after && TableValid(m + bytes, after[|table|..])
    ensures TableValid(m + bytes, after)
  {
    TableValidLonger(m, bytes, table);
    forall i | 0 <= i < |after|
      ensures Points(m + bytes, after[i])
    {
      if i < |table| {
        assert after[i] == table[i];
      } else {
        assert after[i] == after[|table|..][i - |table|];
      }
    }
  }

  lemma TwoFields(m: seq<Byte>, x: nat, y: nat, tail: seq<Byte>)
    ensures var s := m + (U16(x) + U16(y)) + tail; At16(s, |m|) == x % 0x1_0000 && At16(s, |m| + 2) == y % 0x1_0000
  {
    hide U16, At16;
    var s := m + (U16(x) + U16(y)) + tail;
    FieldIsRead(m, x, U16(y) + tail);
    FieldIsRead(m + U16(x), y, tail);
    assert s == m + U16(x) + (U16(y) + tail) == m + U16(x) + U16(y) + tail;
  }

  lemma OwnerFields(m: seq<Byte>, r: Record)
    ensures var s := m + (U16(r.rtype) + U16(r.rclass) + U32(r.ttl));
      At16(s, |m|) == r.rtype % 0x1_0000 && At16(s, |m| + 2) == r.rclass % 0x1_0000 && At32(s, |m| + 4) == r.ttl % 0x1_0000_0000
  {
    hide U16, U32, At16, At32;
    var two, none: seq<Byte> := U16(r.rtype) + U16(r.rclass), [];
    var s := m + (two + U32(r.ttl));
    TwoFields(m, r.rtype, r.rclass, U32(r.ttl));
    LongFieldIsRead(m + two, r.ttl, none);
    assert s == m + two + U32(r.ttl) == m + two + U32(r.ttl) + none;
  }

  lemma PutQuestionSound(o: Out, q: Question, oom: set<nat>)
    requires o.Going? && Sound(o) && PutQuestion(o, q, oom).Going?
    ensures var o' := PutQuestion(o, q, oom);
      && o.bytes <= o'.bytes && Sound(o')
      && QuestionAt(o'.bytes, |o.bytes|, q, |o'.bytes|)
  {
    var w := EncodeName(q.name, |o.bytes|, BUF_LEN, o.table, true, oom);
    var tail := U16(q.qtype) + U16(q.qclass);
    NameWritten(o.bytes, o.table, q.name, tail, oom);
    assert PutQuestion(o, q, oom).bytes == o.bytes + w.bytes + tail;
    TwoFields(o.bytes + w.bytes, q.qtype, q.qclass, []);
  }

  lemma PutOwnerSound(o: Out, r: Record, oom: set<nat>)
    requires o.Going? && Sound(o) && PutOwner(o, r, oom).Going?
    ensures var o' := PutOwner(o, r, oom);
      && o.bytes <= o'.bytes && Sound(o')
      && OwnerAt(o'.bytes, |o.bytes|, r, |o'.bytes|)
  {
    var w := EncodeName(r.name, |o.bytes|, BUF_LEN, o.table, true, oom);
    var tail := U16(r.rtype) + U16(r.rclass) + U32(r.ttl);
    NameWritten(o.bytes, o.table, r.name, tail, oom);
    assert PutOwner(o, r, oom).bytes == o.bytes + w.bytes + tail;
    OwnerFields(o.bytes + w.bytes, r);
  }

  lemma PutDataSound(o: Out, data: Rdata, oom: set<nat>)
    requires o.Going? && Sound(o) && PutData(o, data, oom).Going?
    ensures var o' := PutData(o, data, oom);
      && o.bytes <= o'.bytes && Sound(o')
      && DataAt(o'.bytes, |o.bytes|, data, |o'.bytes|)
  {
    match data
    case NameData(name) => NameDataSound(o, name, oom);
    case RawData(bytes) => RawDataSound(o, bytes, oom);
  }

  lemma NameDataSound(o: Out, name: seq<Byte>, oom: set<nat>)
    requires o.Going? && Sound(o) && PutData(o, NameData(name), oom).Going?
    ensures var o' := PutData(o, NameData(name), oom);
      && o.bytes <= o'.bytes && Sound(o')
      && DataAt(o'.bytes, |o.bytes|, NameData(name), |o'.bytes|)
  {
    hide Encode, U16, TableValid, NameFrom;
    var w := EncodeName(name, |o.bytes| + 2, BUF_LEN, o.table, true, oom);
    var len := U16(|w.bytes|);
    TableValidLonger(o.bytes, len, o.table);
    NameWritten(o.bytes + len, o.table, name, [], oom);
    EncodeBounds(name, |o.bytes| + 2, BUF_LEN, o.table, true, oom);
    assert o.bytes + len + w.bytes + [] == PutData(o, NameData(name), oom).bytes;
    FieldIsRead(o.bytes, |w.bytes|, w.bytes);
  }

  lemma RawDataSound(o: Out, bytes: seq<Byte>, oom: set<nat>)
    requires o.Going? && Sound(o) && PutData(o, RawData(bytes), oom).Going?
    ensures var o' := PutData(o, RawData(bytes), oom);
      && o.bytes <= o'.bytes && Sound(o')
      && DataAt(o'.bytes, |o.bytes|, RawData(bytes), |o'.bytes|)
  {
    hide U16, TableValid;
    TableValidLonger(o.bytes, U16(|bytes|) + bytes, o.table);
    assert o.bytes + (U16(|bytes|) + bytes) == PutData(o, RawData(bytes), oom).bytes;
    FieldIsRead(o.bytes, |bytes|, bytes);
  }

  lemma PutRecordSound(o: Out, r: Record, oom: set<nat>)
    requires o.Going? && Sound(o) && PutRecord(o, r, oom).Going?
    ensures var o' := PutRecord(o, r, oom);
      && o.bytes <= o'.bytes && Sound(o')
      && RecordAt(o'.bytes, |o.bytes|, r, |o'.bytes|)
  {
    var k := PutOwner(o, r, oom);
    PutOwnerSound(o, r, oom);
    PutDataSound(k, r.data, oom);
    var o' := PutRecord(o, r, oom);
    assert o'.bytes == k.bytes + o'.bytes[|k.bytes|..];
    OwnerAtLonger(k.bytes, o'.bytes[|k.bytes|..], |o.bytes|, r, |k.bytes|);
  }

  lemma OwnerAtLonger(m: seq<Byte>, tail: seq<Byte>, a: nat, r: Record, b: nat)
    requires OwnerAt(m, a, r, b)
    ensures OwnerAt(m + tail, a, r, b)
  {
    NameFromLonger(m, tail, a, r.name, b - 8);
    FieldsStay(m, tail);
  }

  lemma QuestionAtLonger(m: seq<Byte>, tail: seq<Byte>, a: nat, q: Question, b: nat)
    requires QuestionAt(m, a, q, b)
    ensures QuestionAt(m + tail, a, q, b)
  {
    NameFromLonger(m, tail, a, q.name, b - 4);
    FieldsStay(m, tail);
  }

  lemma RecordAtLonger(m: seq<Byte>, tail: seq<Byte>, a: nat, r: Record, b: nat)
    requires RecordAt(m, a, r, b)
    ensures RecordAt(m + tail, a, r, b)
  {
    hide OwnerAt, DataAt;
    var k: nat :| OwnerAt(m, a, r, k) && DataAt(m, k, r.data, b);
    OwnerAtLonger(m, tail, a, r, k);
    DataAtLonger(m, tail, k, r.data, b);
  }

  lemma DataAtLonger(m: seq<Byte>, tail: seq<Byte>, a: nat, data: Rdata, b: nat)
    requires DataAt(m, a, data, b)
    ensures DataAt(m + tail, a, data, b)
  {
    hide NameFrom;
    FieldsStay(m, tail);
    match data
    case NameData(name) => NameFromLonger(m, tail, a + 2, name, b);
    case RawData(bytes) => assert (m + tail)[a + 2..b] == m[a + 2..b];
  }

  // Item i stands in m where writing it put it.
  ghost predicate QuestionInPlace(m: seq<Byte>, o: Out, qs: seq<Question>, i: nat, oom: set<nat>)
    requires i < |qs|
  {
    var a, b := PutQuestions(o, qs, i, oom), PutQuestions(o, qs, i + 1, oom);
    a.Going? && b.Going? && QuestionAt(m, |a.bytes|, qs[i], |b.bytes|)
  }

  lemma QuestionInPlaceLonger(m: seq<Byte>, m': seq<Byte>, o: Out, qs: seq<Question>, i: nat, oom: set<nat>)
    requires i < |qs| && QuestionInPlace(m, o, qs, i, oom) && m <= m'
    ensures QuestionInPlace(m', o, qs, i, oom)
  {
    hide PutQuestions, QuestionAt;
    assert m' == m + m'[|m|..];
    QuestionAtLonger(m, m'[|m|..], |PutQuestions(o, qs, i, oom).bytes|, qs[i], |PutQuestions(o, qs, i + 1, oom).bytes|);
  }

  lemma {:induction false} QuestionsReadBack(o: Out, qs: seq<Question>, n: nat, oom: set<nat>)
    requires n <= |qs| && o.Going? && Sound(o) && PutQuestions(o, qs, n, oom).Going?
    ensures var o' := PutQuestions(o, qs, n, oom);
      o.bytes <= o'.bytes && Sound(o') && |o.bytes| + 5 * n <= |o'.bytes|
    ensures forall i :: 0 <= i < n ==> QuestionInPlace(PutQuestions(o, qs, n, oom).bytes, o, qs, i, oom)
  {
    hide PutQuestion, QuestionInPlace, Sound;
    if n > 0 {
      QuestionsGoingBefore(o, qs, n, oom);
      QuestionsReadBack(o, qs, n - 1, oom);
      QuestionLast(o, qs, n, oom);
      QuestionsStayInPlace(o, qs, n, oom);
    }
  }

  lemma QuestionsGoingBefore(o: Out, qs: seq<Question>, n: nat, oom: set<nat>)
    requires 0 < n <= |qs| && PutQuestions(o, qs, n, oom).Going?
    ensures PutQuestions(o, qs, n - 1, oom).Going?
  {
  }

  lemma QuestionsStayInPlace(o: Out, qs: seq<Question>, n: nat, oom: set<nat>)
    requires 0 < n <= |qs|
    requires var p, o' := PutQuestions(o, qs, n - 1, oom), PutQuestions(o, qs, n, oom);
      && p.Going? && o'.Going? && p.bytes <= o'.bytes
      && forall i :: 0 <= i < n - 1 ==> QuestionInPlace(p.bytes, o, qs, i, oom)
    ensures forall i :: 0 <= i < n - 1 ==> QuestionInPlace(PutQuestions(o, qs, n, oom).bytes, o, qs, i, oom)
  {
    hide PutQuestions, QuestionInPlace;
    forall i | 0 <= i < n - 1
      ensures QuestionInPlace(PutQuestions(o, qs, n, oom).bytes, o, qs, i, oom)
    {
      QuestionInPlaceLonger(PutQuestions(o, qs, n - 1, oom).bytes, PutQuestions(o, qs, n, oom).bytes, o, qs, i, oom);
    }
  }

  lemma QuestionLast(o: Out, qs: seq<Question>, n: nat, oom: set<nat>)
    requires 0 < n <= |qs| && PutQuestions(o, qs, n, oom).Going?
    requires PutQuestions(o, qs, n - 1, oom).Going? ==> Sound(PutQuestions(o, qs, n - 1, oom))
    ensures var p, o' := PutQuestions(o, qs, n - 1, oom), PutQuestions(o, qs, n, oom);
      && p.Going? && p.bytes <= o'.bytes && Sound(o') && |p.bytes| + 5 <= |o'.bytes|
      && QuestionInPlace(o'.bytes, o, qs, n - 1, oom)
  {
    var p := PutQuestions(o, qs, n - 1, oom);
    PutQuestionSound(p, qs[n - 1], oom);
  }

  // Item i stands in m where writing it put it.
  ghost predicate RecordInPlace(m: seq<Byte>, o: Out, rs: seq<Record>, i: nat, oom: set<nat>)
    requires i < |rs|
  {
    var a, b := PutRecords(o, rs, i, oom), PutRecords(o, rs, i + 1, oom);
    a.Going? && b.Going? && RecordAt(m, |a.bytes|, rs[i], |b.bytes|)
  }

  lemma RecordInPlaceLonger(m: seq<Byte>, m': seq<Byte>, o: Out, rs: seq<Record>, i: nat, oom: set<nat>)
    requires i < |rs| && RecordInPlace(m, o, rs, i, oom) && m <= m'
    ensures RecordInPlace(m', o, rs, i, oom)
  {
    hide PutRecords, RecordAt;
    assert m' == m + m'[|m|..];
    RecordAtLonger(m, m'[|m|..], |PutRecords(o, rs, i, oom).bytes|, rs[i], |PutRecords(o, rs, i + 1, oom).bytes|);
  }

  lemma {:induction false} RecordsReadBack(o: Out, rs: seq<Record>, n: nat, oom: set<nat>)
    requires n <= |rs| && o.Going? && Sound(o) && PutRecords(o, rs, n, oom).Going?
    ensures var o' := PutRecords(o, rs, n, oom);
      o.bytes <= o'.bytes && Sound(o') && |o.bytes| + 11 * n <= |o'.bytes|
    ensures forall i :: 0 <= i < n ==> RecordInPlace(PutRecords(o, rs, n, oom).bytes, o, rs, i, oom)
  {
    hide PutRecord, RecordInPlace, Sound;
    if n > 0 {
      RecordsGoingBefore(o, rs, n, oom);
      RecordsReadBack(o, rs, n - 1, oom);
      RecordLast(o, rs, n, oom);
      RecordsStayInPlace(o, rs, n, oom);
    }
  }

  lemma RecordsGoingBefore(o: Out, rs: seq<Record>, n: nat, oom: set<nat>)
    requires 0 < n <= |rs| && PutRecords(o, rs, n, oom).Going?
    ensures PutRecords(o, rs, n - 1, oom).Going?
  {
  }

  lemma RecordsStayInPlace(o: Out, rs: seq<Record>, n: nat, oom: set<nat>)
    requires 0 < n <= |rs|
    requires var p, o' := PutRecords(o, rs, n - 1, oom), PutRecords(o, rs, n, oom);
      && p.Going? && o'.Going? && p.bytes <= o'.bytes
      && forall i :: 0 <= i < n - 1 ==> RecordInPlace(p.bytes, o, rs, i, oom)
    ensures forall i :: 0 <= i < n - 1 ==> RecordInPlace(PutRecords(o, rs, n, oom).bytes, o, rs, i, oom)
  {
    hide PutRecords, RecordInPlace;
    forall i | 0 <= i < n - 1
      ensures RecordInPlace(PutRecords(o, rs, n, oom).bytes, o, rs, i, oom)
    {
      RecordInPlaceLonger(PutRecords(o, rs, n - 1, oom).bytes, PutRecords(o, rs, n, oom).bytes, o, rs, i, oom);
    }
  }

  lemma RecordLast(o: Out, rs: seq<Record>, n: nat, oom: set<nat>)
    requires 0 < n <= |rs| && PutRecords(o, rs, n, oom).Going?
    requires PutRecords(o, rs, n - 1, oom).Going? ==> Sound(PutRecords(o, rs, n - 1, oom))
    ensures var p, o' := PutRecords(o, rs, n - 1, oom), PutRecords(o, rs, n, oom);
      && p.Going? && p.bytes <= o'.bytes && Sound(o') && |p.bytes| + 11 <= |o'.bytes|
      && RecordInPlace(o'.bytes, o, rs, n - 1, oom)
  {
    var p := PutRecords(o, rs, n - 1, oom);
    PutRecordSound(p, rs[n - 1], oom);
  }

  lemma {:induction false} QuestionsAllGoing(o: Out, qs: seq<Question>, n: nat, oom: set<nat>)
    requires n <= |qs| && PutQuestions(o, qs, n, oom).Going?
    ensures o.Going?
  {
    if n > 0 {
      QuestionsAllGoing(o, qs, n - 1, oom);
    }
  }

  lemma {:induction false} RecordsAllGoing(o: Out, rs: seq<Record>, n: nat, oom: set<nat>)
    requires n <= |rs| && PutRecords(o, rs, n, oom).Going?
    ensures o.Going?
  {
    if n > 0 {
      RecordsAllGoing(o, rs, n - 1, oom);
    }
  }

  // ---------- Bits ----------

  // Bit i of x, the lowest being bit 0.
  predicate BitOf(x: nat, i: nat) {
    if i == 0 then x % 2 == 1 else BitOf(x / 2, i - 1)
  }

  // The lowest n bits of x | y.
  function OrBits(x: nat, y: nat, n: nat): nat {
    if n == 0 then 0 else 2 * OrBits(x / 2, y / 2, n - 1) + if x % 2 == 1 || y % 2 == 1 then 1 else 0
  }

  function Power2(n: nat): (p: nat)
    ensures 0 < p
  {
    if n == 0 then 1 else 2 * Power2(n - 1)
  }

  lemma {:induction false} OrBit(x: nat, y: nat, n: nat, i: nat)
    requires i < n
    ensures BitOf(OrBits(x, y, n), i) <==> BitOf(x, i) || BitOf(y, i)
  {
    if i > 0 {
      OrBit(x / 2, y / 2, n - 1, i - 1);
    }
  }

  lemma {:induction false} OrBelow(x: nat, y: nat, n: nat)
    ensures OrBits(x, y, n) < Power2(n) && Power2(16) == 0x1_0000
  {
    assert Power2(4) == 16 && Power2(8) == 16 * Power2(4) && Power2(12) == 16 * Power2(8) && Power2(16) == 16 * Power2(12);
    if n > 0 {
      OrBelow(x / 2, y / 2, n - 1);
    }
  }

  lemma {:induction false} BitOfPower(n: nat, i: nat)
    ensures BitOf(Power2(n), i) <==> i == n
    ensures Power2(15) == 0x8000
  {
    assert Power2(3) == 8 && Power2(7) == 16 * Power2(3) && Power2(11) == 16 * Power2(7) && Power2(15) == 16 * Power2(11);
    if i > 0 {
      if n > 0 {
        BitOfPower(n - 1, i - 1);
      } else {
        NoBits(i - 1);
      }
    }
  }

  lemma {:induction false} NoBits(i: nat)
    ensures !BitOf(0, i)
  {
    if i > 0 {
      NoBits(i - 1);
    }
  }

  lemma {:induction false} HighBits(x: nat, n: nat, i: nat)
    requires x < Power2(n) || (n == 4 && x < 16)
    ensures n <= i ==> !BitOf(x, i)
  {
    assert Power2(4) == 16;
    if n == 0 {
      NoBits(i);
    } else if n <= i {
      HighBits(x / 2, n - 1, i - 1);
    }
  }

  // ---------- The whole reply ----------

  datatype Reply = Reply(transId: nat, flags: nat, questions: seq<Question>,
                         answer: seq<Record>, authority: seq<Record>, additional: seq<Record>) {
    predicate Ok() {
      && transId < 0x10000 && flags < 0x10000
      && (forall i :: 0 <= i < |questions| ==> QuestionOk(questions[i]))
      && (forall i :: 0 <= i < |Records()| ==> RecordOk(Records()[i]))
    }

    function Records(): seq<Record> {
      answer + authority + additional
    }

    function FlagWord(err: nat): nat
      requires err <= 15
    {
      OrBits(flags, OrBits(0x8000, err, 16), 16)
    }

    function Header(err: nat): (b: seq<Byte>)
      requires err <= 15
      ensures |b| == 12
    {
      U16(transId) + U16(FlagWord(err)) + U16(|questions|)
        + U16(|answer|) + U16(|authority|) + U16(|additional|)
    }

    // The twelve bytes in front: the id of the request, its flags with the answer bit and the error code, and the
    // number of items in each section.
    ghost predicate Headed(h: seq<Byte>, err: nat)
      requires err <= 15
    {
      && |h| == 12
      && At16(h, 0) == transId % 0x1_0000
      && FlagsHeld(At16(h, 2), err)
      && At16(h, 4) == |questions| % 0x1_0000 && At16(h, 6) == |answer| % 0x1_0000
      && At16(h, 8) == |authority| % 0x1_0000 && At16(h, 10) == |additional| % 0x1_0000
    }

    // Bit by bit: the highest is set, the lowest four are those of the request or the error code, the others stay.
    ghost predicate FlagsHeld(x: nat, err: nat)
      requires err <= 15
    {
      forall i: nat :: i < 16 ==> (BitOf(x, i) <==> BitOf(flags, i) || i == 15 || (i < 4 && BitOf(err, i)))
    }

    lemma HeaderTells(err: nat)
      requires err <= 15
      ensures Headed(Header(err), err)
    {
      hide FlagsHeld, FlagWord, At16, U16;
      HeaderFields(FlagWord(err));
      FlagWordTells(err);
    }

    lemma FlagWordTells(err: nat)
      requires err <= 15
      ensures FlagWord(err) < 0x1_0000 && FlagsHeld(FlagWord(err), err)
    {
      hide OrBits, BitOf;
      var more := OrBits(0x8000, err, 16);
      OrBelow(flags, more, 16);
      forall i: nat | i < 16
        ensures BitOf(FlagWord(err), i) <==> BitOf(flags, i) || i == 15 || (i < 4 && BitOf(err, i))
      {
        OrBit(flags, more, 16, i);
        OrBit(0x8000, err, 16, i);
        BitOfPower(15, i);
        HighBits(err, 4, i);
      }
    }

    lemma HeaderFields(f: nat)
      ensures var h := U16(transId) + U16(f) + U16(|questions|) + U16(|answer|) + U16(|authority|) + U16(|additional|);
        && |h| == 12 && At16(h, 0) == transId % 0x1_0000 && At16(h, 2) == f % 0x1_0000
        && At16(h, 4) == |questions| % 0x1_0000 && At16(h, 6) == |answer| % 0x1_0000
        && At16(h, 8) == |authority| % 0x1_0000 && At16(h, 10) == |additional| % 0x1_0000
    {
      SixFields(transId, f, |questions|, |answer|, |authority|, |additional|);
    }

    function AfterQuestions(err: nat, oom: set<nat>): Out
      requires err <= 15
    {
      PutQuestions(Going(Header(err), []), questions, |questions|, oom)
    }

    function Formatted(err: nat, oom: set<nat>): Out
      requires err <= 15
    {
      PutRecords(AfterQuestions(err, oom), Records(), |Records()|, oom)
    }

    // Whatever becomes of the rest, the header is there.
    lemma HeaderStays(err: nat, oom: set<nat>)
      requires err <= 15 && !Formatted(err, oom).Error?
      ensures 12 <= |Formatted(err, oom).bytes| && Headed(Formatted(err, oom).bytes[..12], err)
    {
      hide Header, PutQuestions, PutRecords, Headed;
      var o := Going(Header(err), []);
      RecordsKeep(AfterQuestions(err, oom), Records(), |Records()|, oom);
      QuestionsKeep(o, questions, |questions|, oom);
      HeaderTells(err);
      assert Formatted(err, oom).bytes[..12] == Header(err);
    }

    lemma ReadsBack(err: nat, oom: set<nat>)
      requires err <= 15 && Formatted(err, oom).Going?
      ensures HeldBy(Formatted(err, oom).bytes, err)
    {
      hide Header, PutQuestions, PutRecords, PutRecord, PutQuestion, QuestionAt, RecordAt, QuestionInPlace, RecordInPlace;
      var o := Going(Header(err), []);
      var q := AfterQuestions(err, oom);
      var m := Formatted(err, oom).bytes;
      RecordsAllGoing(q, Records(), |Records()|, oom);
      QuestionsReadBack(o, questions, |questions|, oom);
      RecordsReadBack(q, Records(), |Records()|, oom);
      var qs := QuestionOffsets(q.bytes, m, o, questions, oom);
      var rs := RecordOffsets(m, m, q, Records(), oom);
      HeaderTells(err);
      assert m[..12] == Header(err);
    }

    // A message m holds exactly this reply: the counts are the true ones, the sections follow one another
    // from the header to the end, and each name reads back as its labels whatever pointers it uses.
    ghost predicate HeldBy(m: seq<Byte>, err: nat)
      requires err <= 15
    {
      && 12 <= |m| && Headed(m[..12], err)
      && exists qs: seq<nat>, rs: seq<nat> ::
           QuestionsLaidOut(m, questions, 12, qs) && RecordsLaidOut(m, Records(), End(12, qs), rs) && End(End(12, qs), rs) == |m|
    }
  }

  lemma SixFields(a: nat, b: nat, c: nat, d: nat, e: nat, f: nat)
    ensures var h := U16(a) + U16(b) + U16(c) + U16(d) + U16(e) + U16(f);
      && |h| == 12 && At16(h, 0) == a % 0x1_0000 && At16(h, 2) == b % 0x1_0000 && At16(h, 4) == c % 0x1_0000
      && At16(h, 6) == d % 0x1_0000 && At16(h, 8) == e % 0x1_0000 && At16(h, 10) == f % 0x1_0000
  {
    hide At16, U16;
    var none: seq<Byte> := [];
    var h := U16(a) + U16(b) + U16(c) + U16(d) + U16(e) + U16(f);
    FieldIsRead(none, a, U16(b) + U16(c) + U16(d) + U16(e) + U16(f));
    FieldIsRead(U16(a), b, U16(c) + U16(d) + U16(e) + U16(f));
    FieldIsRead(U16(a) + U16(b), c, U16(d) + U16(e) + U16(f));
    FieldIsRead(U16(a) + U16(b) + U16(c), d, U16(e) + U16(f));
    FieldIsRead(U16(a) + U16(b) + U16(c) + U16(d), e, U16(f));
    FieldIsRead(U16(a) + U16(b) + U16(c) + U16(d) + U16(e), f, none);
    assert h == none + U16(a) + (U16(b) + U16(c) + U16(d) + U16(e) + U16(f));
    assert h == U16(a) + U16(b) + (U16(c) + U16(d) + U16(e) + U16(f));
    assert h == U16(a) + U16(b) + U16(c) + (U16(d) + U16(e) + U16(f));
    assert h == U16(a) + U16(b) + U16(c) + U16(d) + (U16(e) + U16(f));
    assert h == U16(a) + U16(b) + U16(c) + U16(d) + U16(e) + U16(f) + none;
  }

  lemma {:induction false} QuestionsKeep(o: Out, qs: seq<Question>, n: nat, oom: set<nat>)
    requires n <= |qs| && !PutQuestions(o, qs, n, oom).Error?
    ensures !o.Error? && o.bytes <= PutQuestions(o, qs, n, oom).bytes
  {
    hide EncodeName, U16;
    if n > 0 {
      QuestionsKeep(o, qs, n - 1, oom);
    }
  }

  lemma {:induction false} RecordsKeep(o: Out, rs: seq<Record>, n: nat, oom: set<nat>)
    requires n <= |rs| && !PutRecords(o, rs, n, oom).Error?
    ensures !o.Error? && o.bytes <= PutRecords(o, rs, n, oom).bytes
  {
    hide PutRecord;
    if n > 0 {
      RecordKeeps(PutRecords(o, rs, n - 1, oom), rs[n - 1], oom);
      RecordsKeep(o, rs, n - 1, oom);
    }
  }

  lemma RecordKeeps(o: Out, r: Record, oom: set<nat>)
    requires !PutRecord(o, r, oom).Error?
    ensures !o.Error? && o.bytes <= PutRecord(o, r, oom).bytes
  {
    hide EncodeName, U16, U32;
  }

  // Offsets where the items of a section end, one after the other from offset `from`.
  ghost function End(from: nat, ends: seq<nat>): nat {
    if ends == [] then from else ends[|ends| - 1]
  }

  ghost predicate QuestionsLaidOut(m: seq<Byte>, qs: seq<Question>, from: nat, ends: seq<nat>) {
    |ends| == |qs| && forall i :: 0 <= i < |qs| ==> QuestionAt(m, End(from, ends[..i]), qs[i], ends[i])
  }

  ghost predicate RecordsLaidOut(m: seq<Byte>, rs: seq<Record>, from: nat, ends: seq<nat>) {
    |ends| == |rs| && forall i :: 0 <= i < |rs| ==> RecordAt(m, End(from, ends[..i]), rs[i], ends[i])
  }

  function Length(o: Out): nat {
    if o.Error? then 0 else |o.bytes|
  }

  lemma QuestionOffsets(m: seq<Byte>, m': seq<Byte>, o: Out, qs: seq<Question>, oom: set<nat>) returns (ends: seq<nat>)
    requires o.Going? && m <= m'
    requires forall i :: 0 <= i < |qs| ==> QuestionInPlace(m, o, qs, i, oom)
    ensures QuestionsLaidOut(m', qs, |o.bytes|, ends)
    ensures End(|o.bytes|, ends) == Length(PutQuestions(o, qs, |qs|, oom))
  {
    hide QuestionAt, PutQuestion;
    ends := seq(|qs|, i requires 0 <= i < |qs| => Length(PutQuestions(o, qs, i + 1, oom)));
    forall i | 0 <= i < |qs|
      ensures QuestionAt(m', End(|o.bytes|, ends[..i]), qs[i], ends[i])
    {
      QuestionInPlaceLonger(m, m', o, qs, i, oom);
      assert QuestionAt(m', Length(PutQuestions(o, qs, i, oom)), qs[i], Length(PutQuestions(o, qs, i + 1, oom)));
      assert End(|o.bytes|, ends[..i]) == Length(PutQuestions(o, qs, i, oom)) by {
        assert i > 0 ==> ends[..i][i - 1] == ends[i - 1];
      }
    }
  }

  lemma RecordOffsets(m: seq<Byte>, m': seq<Byte>, o: Out, rs: seq<Record>, oom: set<nat>) returns (ends: seq<nat>)
    requires o.Going? && m <= m'
    requires forall i :: 0 <= i < |rs| ==> RecordInPlace(m, o, rs, i, oom)
    ensures RecordsLaidOut(m', rs, |o.bytes|, ends)
    ensures End(|o.bytes|, ends) == Length(PutRecords(o, rs, |rs|, oom))
  {
    hide RecordAt, PutRecord;
    ends := seq(|rs|, i requires 0 <= i < |rs| => Length(PutRecords(o, rs, i + 1, oom)));
    forall i | 0 <= i < |rs|
      ensures RecordAt(m', End(|o.bytes|, ends[..i]), rs[i], ends[i])
    {
      RecordInPlaceLonger(m, m', o, rs, i, oom);
      assert RecordAt(m', Length(PutRecords(o, rs, i, oom)), rs[i], Length(PutRecords(o, rs, i + 1, oom)));
      assert End(|o.bytes|, ends[..i]) == Length(PutRecords(o, rs, i, oom)) by {
        assert i > 0 ==> ends[..i][i - 1] == ends[i - 1];
      }
    }
  }
}
