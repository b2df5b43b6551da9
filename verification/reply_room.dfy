// Whether a reply stays inside the buffer it is formatted in (evdns_server_request_format_response).
module ReplyRoom {
  import opened Bytes
  import opened Names
  import opened NameWriter
  import opened Messages

  // A byte was stored behind the buffer.
  predicate Spilled(o: Out) {
    !o.Error? && |o.bytes| > BUF_LEN
  }

  // When writing one item does it: the name that starts the item, or the name that is its data, spills.
  predicate QuestionSpills(o: Out, q: Question) {
    o.Going? && Spills(q.name, |o.bytes|, BUF_LEN, o.table, true)
  }

  predicate OwnerSpills(o: Out, r: Record) {
    o.Going? && Spills(r.name, |o.bytes|, BUF_LEN, o.table, true)
  }

  predicate DataSpills(o: Out, data: Rdata) {
    o.Going? && data.NameData? && Spills(data.name, |o.bytes| + 2, BUF_LEN, o.table, true)
  }

  predicate RecordSpills(o: Out, r: Record, oom: set<nat>) {
    OwnerSpills(o, r) || DataSpills(PutOwner(o, r, oom), r.data)
  }

  // Where a name ends that is written at offset j.
  lemma NameRoom(name: seq<Byte>, j: nat, table: seq<Entry>, oom: set<nat>)
    ensures var w := EncodeName(name, j, BUF_LEN, table, true, oom);
      && (w.Written? && j + |w.bytes| > BUF_LEN <==> Spills(name, j, BUF_LEN, table, true))
      && (w.Written? ==> j <= BUF_LEN)
      && (w.Failed? ==> w.bytes == [] || j + |w.bytes| <= BUF_LEN)
  {
    hide Encode, Spills;
    SpillsExactly(name, j, BUF_LEN, table, true, oom);
    FailedInside(name, j, BUF_LEN, table, true, oom);
  }

  lemma QuestionRoom(o: Out, q: Question, oom: set<nat>)
    requires !Spilled(o)
    ensures Spilled(PutQuestion(o, q, oom)) <==> QuestionSpills(o, q)
    ensures PutQuestion(o, q, oom).Going? ==> !Spilled(PutQuestion(o, q, oom))
  {
    hide EncodeName, Spills, U16;
    if o.Going? {
      NameRoom(q.name, |o.bytes|, o.table, oom);
    }
  }

  lemma OwnerRoom(o: Out, r: Record, oom: set<nat>)
    ensures Spilled(PutOwner(o, r, oom)) <==> Spilled(o) || OwnerSpills(o, r)
    ensures PutOwner(o, r, oom).Going? ==> !Spilled(PutOwner(o, r, oom))|| o == PutOwner(o, r, oom)
  {
    hide EncodeName, Spills, U16, U32;
    if o.Going? {
      NameRoom(r.name, |o.bytes|, o.table, oom);
    }
  }

  lemma DataRoom(o: Out, data: Rdata, oom: set<nat>)
    ensures Spilled(PutData(o, data, oom)) <==> Spilled(o) || DataSpills(o, data)
  {
    hide EncodeName, Spills, U16;
    if o.Going? && data.NameData? {
      NameRoom(data.name, |o.bytes| + 2, o.table, oom);
    }
  }

  lemma RecordRoom(o: Out, r: Record, oom: set<nat>)
    ensures Spilled(PutRecord(o, r, oom)) <==> Spilled(o) || RecordSpills(o, r, oom)
  {
    hide PutOwner, PutData, OwnerSpills, DataSpills;
    OwnerRoom(o, r, oom);
    DataRoom(PutOwner(o, r, oom), r.data, oom);
  }

  lemma {:induction false} QuestionsRoom(o: Out, qs: seq<Question>, n: nat, oom: set<nat>)
    requires n <= |qs| && !Spilled(o)
    ensures Spilled(PutQuestions(o, qs, n, oom)) <==> exists i :: 0 <= i < n && QuestionSpills(PutQuestions(o, qs, i, oom), qs[i])
    ensures PutQuestions(o, qs, n, oom).Going? ==> !Spilled(PutQuestions(o, qs, n, oom))
  {
    hide PutQuestion, QuestionSpills;
    if n > 0 {
      var p := PutQuestions(o, qs, n - 1, oom);
      QuestionsRoom(o, qs, n - 1, oom);
      if Spilled(p) {
        Stays(p, qs[n - 1], oom);
      } else {
        QuestionRoom(p, qs[n - 1], oom);
      }
    }
  }

  lemma Stays(o: Out, q: Question, oom: set<nat>)
    requires !o.Going?
    ensures PutQuestion(o, q, oom) == o && !QuestionSpills(o, q)
  {
  }

  lemma {:induction false} RecordsRoom(o: Out, rs: seq<Record>, n: nat, oom: set<nat>)
    requires n <= |rs|
    ensures Spilled(PutRecords(o, rs, n, oom)) <==>
      Spilled(o) || exists i :: 0 <= i < n && RecordSpills(PutRecords(o, rs, i, oom), rs[i], oom)
  {
    hide PutRecord, RecordSpills;
    if n > 0 {
      RecordsRoom(o, rs, n - 1, oom);
      RecordRoom(PutRecords(o, rs, n - 1, oom), rs[n - 1], oom);
    }
  }

  // What is inside at the end was inside before.
  lemma {:induction false} QuestionsInside(o: Out, qs: seq<Question>, k: nat, n: nat, oom: set<nat>)
    requires k <= n <= |qs| && !Spilled(o) && !Spilled(PutQuestions(o, qs, n, oom))
    ensures !Spilled(PutQuestions(o, qs, k, oom))
    decreases n - k
  {
    hide PutQuestion;
    if k < n {
      QuestionsRoom(o, qs, n - 1, oom);
      if !PutQuestions(o, qs, n - 1, oom).Going? {
        Stays(PutQuestions(o, qs, n - 1, oom), qs[n - 1], oom);
      }
      QuestionsInside(o, qs, k, n - 1, oom);
    }
  }

  lemma {:induction false} RecordsInside(o: Out, rs: seq<Record>, k: nat, n: nat, oom: set<nat>)
    requires k <= n <= |rs| && !Spilled(PutRecords(o, rs, n, oom))
    ensures !Spilled(PutRecords(o, rs, k, oom))
    decreases n - k
  {
    hide PutRecord;
    if k < n {
      RecordRoom(PutRecords(o, rs, n - 1, oom), rs[n - 1], oom);
      RecordsInside(o, rs, k, n - 1, oom);
    }
  }

  // When some name of the reply spills where it is written.
  ghost predicate ReplySpills(r: Reply, err: nat, oom: set<nat>)
    requires err <= 15
  {
    var start, next := Going(r.Header(err), []), r.AfterQuestions(err, oom);
    || (exists i :: 0 <= i < |r.questions| && QuestionSpills(PutQuestions(start, r.questions, i, oom), r.questions[i]))
    || exists i :: 0 <= i < |r.Records()| && RecordSpills(PutRecords(next, r.Records(), i, oom), r.Records()[i], oom)
  }

  // Formatting a reply stores a byte behind its buffer of 1500 bytes if and only if one of its names spills.
  lemma SpilledExactly(r: Reply, err: nat, oom: set<nat>)
    requires err <= 15
    ensures Spilled(r.Formatted(err, oom)) <==> ReplySpills(r, err, oom)
  {
    hide PutQuestions, PutRecords, QuestionSpills, RecordSpills;
    QuestionsRoom(Going(r.Header(err), []), r.questions, |r.questions|, oom);
    RecordsRoom(r.AfterQuestions(err, oom), r.Records(), |r.Records()|, oom);
  }

  // ---------- A reply that does ----------

  const FILLER := Record([], 1, 1, 0, RawData(seq(1463, _ => 0 as Byte)))
  const LAST := Record([], 12, 1, 0, NameData([97]))

  lemma FillerWritten(h: seq<Byte>)
    requires |h| == 12
    ensures var o := PutRecord(Going(h, []), FILLER, {}); o.Going? && |o.bytes| == 1486 && o.table == [Entry([], 12)]
  {
    assert IndexOfDot([]) == -1 && Find([], []) == -1;
    assert EncodeName([], 12, BUF_LEN, [], true, {}) == Written([0], [Entry([], 12)]);
  }

  lemma LastSpills(o: Out)
    requires o.Going? && |o.bytes| == 1486 && o.table == [Entry([], 12)]
    ensures RecordSpills(o, LAST, {}) && PutRecord(o, LAST, {}).Going? && |PutRecord(o, LAST, {}).bytes| == BUF_LEN + 1
  {
    assert IndexOfDot([97]) == -1 && Find([], [97]) == -1 && Find(o.table, [97]) == -1;
    assert EncodeName([], 1486, BUF_LEN, o.table, true, {}) == Written(PointerTo(12), o.table);
    var k := PutOwner(o, LAST, {});
    assert |k.bytes| == 1496;
    assert EncodeName([97], 1498, BUF_LEN, k.table, true, {}) == Written([1, 97, 0], k.table + [Entry([97], 1498)]);
  }

  // Two records with the root as their owner: 1463 bytes of data, and a name of one letter. All of it was written,
  // and the last byte lies behind the buffer.
  lemma SpilledReply()
    ensures var r := Reply(1, 0, [], [FILLER, LAST], [], []);
      && r.Ok() && ReplySpills(r, 0, {})
      && r.Formatted(0, {}).Going? && |r.Formatted(0, {}).bytes| == BUF_LEN + 1
  {
    hide PutRecord, RecordSpills, U16;
    var r := Reply(1, 0, [], [FILLER, LAST], [], []);
    var o := r.AfterQuestions(0, {});
    assert o == Going(r.Header(0), []);
    FillerWritten(r.Header(0));
    var p := PutRecords(o, r.Records(), 1, {});
    assert p == PutRecord(PutRecords(o, r.Records(), 0, {}), FILLER, {});
    LastSpills(p);
    assert RecordSpills(PutRecords(o, r.Records(), 1, {}), r.Records()[1], {});
  }
}
