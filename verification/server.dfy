// The server side of evdns: formatting the reply to a request into a fixed buffer.
module Server {
  import opened Bytes
  import opened Names
  import opened NameWriter
  import opened Messages
  import opened ReplyRoom

  datatype Status = Fine | Full | Bad(code: int)

  // The buffer, the table and the offset show the outcome o. `stack` is what the buffer held at first; nothing was
  // written behind a message that goes on, nor to the place where one stopped.
  ghost predicate Shows(o: Out, st: Status, j: nat, now: seq<Byte>, table: seq<Entry>, stack: seq<Byte>) {
    && (o.Going? ==> o.table == table)
    && Filled(o, st, j, now, stack)
  }

  // The same once the table is no longer needed.
  ghost predicate Filled(o: Out, st: Status, j: nat, now: seq<Byte>, stack: seq<Byte>) {
    |now| == |stack| == BUF_LEN &&
    match o
    case Going(bytes, _) => st.Fine? && 12 <= j == |bytes| && bytes <= now && now[|bytes|..] == stack[|bytes|..]
    case Overflow(bytes) => st.Full? && 12 <= |bytes| && bytes <= now && (|bytes| < |now| ==> now[|bytes|] == stack[|bytes|])
    case Error(code) => st == Bad(code) && code < 0
  }

  method WriteName(buf: array<Byte>, j: nat, name: seq<Byte>, table: LabelTable, oom: set<nat>) returns (r: int)
    requires buf.Length == BUF_LEN && NoNul(name) && j <= buf.Length && !Spills(name, j, BUF_LEN, table.entries, true)
    modifies buf, table
    ensures var w := EncodeName(name, j, BUF_LEN, old(table.entries), true, oom);
      && table.entries == w.table
      && j + |w.bytes| <= BUF_LEN && buf[..j + |w.bytes|] == old(buf[..j]) + w.bytes
      && buf[j + |w.bytes|..] == old(buf[j + |w.bytes|..])
      && if w.Failed? then r == w.code < 0 else j < r == j + |w.bytes|
  {
    hide Encode, Spills;
    NameRoom(name, j, table.entries, oom);
    r := DnsnameToLabels(buf, BUF_LEN, j, name, table, oom);
  }

  // APPEND16, APPEND32 and memcpy: store bytes if there is room.
  method Append(buf: array<Byte>, j: nat, b: seq<Byte>) returns (ok: bool)
    requires buf.Length == BUF_LEN
    modifies buf
    ensures ok == (j + |b| <= BUF_LEN)
    ensures ok ==> buf[..j + |b|] == old(buf[..j]) + b && buf[j + |b|..] == old(buf[j + |b|..])
    ensures !ok ==> buf[..] == old(buf[..])
  {
    ok := j + |b| <= BUF_LEN;
    if ok {
      CopyIn(b, buf, j, buf[..], j, []);
      assert [] + b == b;
    }
  }

  // A field of fixed size, as the outcome has it.
  method AppendField(buf: array<Byte>, j: nat, b: seq<Byte>, ghost bytes: seq<Byte>, ghost stack: seq<Byte>) returns (ok: bool)
    requires buf.Length == BUF_LEN && Prefix(bytes, j, buf[..], stack)
    modifies buf
    ensures ok == (j + |b| <= BUF_LEN) && Prefix(IfRoom(bytes, b), if ok then j + |b| else j, buf[..], stack)
  {
    ok := Append(buf, j, b);
  }

  // The first j bytes have been written, and the others not.
  ghost predicate Prefix(bytes: seq<Byte>, j: nat, now: seq<Byte>, stack: seq<Byte>) {
    |bytes| == j && |now| == |stack| == BUF_LEN && bytes <= now && now[j..] == stack[j..]
  }

  lemma NameStored(now: seq<Byte>, before: seq<Byte>, bytes: seq<Byte>, more: seq<Byte>, j: nat, stack: seq<Byte>)
    requires Prefix(bytes, j, before, stack) && |now| == BUF_LEN && j + |more| <= |now|
    requires now[..j + |more|] == before[..j] + more && now[j + |more|..] == before[j + |more|..]
    ensures Prefix(bytes + more, j + |more|, now, stack)
  {
    var k := j + |more|;
    assert before[..j] == bytes;
    assert before[k..] == before[j..][|more|..] && stack[k..] == stack[j..][|more|..];
  }

  lemma StopsHere(bytes: seq<Byte>, j: nat, now: seq<Byte>, stack: seq<Byte>)
    requires Prefix(bytes, j, now, stack) && 12 <= j
    ensures Filled(Overflow(bytes), Full, j, now, stack)
  {
    if j < |now| {
      assert now[j..][0] == now[j] && stack[j..][0] == stack[j];
    }
  }

  method AddQuestion(buf: array<Byte>, j: nat, q: Question, table: LabelTable, oom: set<nat>, ghost o: Out, ghost stack: seq<Byte>)
    returns (st: Status, j': nat)
    requires buf.Length == BUF_LEN && NoNul(q.name) && !QuestionSpills(o, q)
    requires o.Going? && Shows(o, Fine, j, buf[..], table.entries, stack)
    modifies buf, table
    ensures Shows(PutQuestion(o, q, oom), st, j', buf[..], table.entries, stack)
  {
    hide EncodeName, U16, Spills;
    ghost var before, w := buf[..], EncodeName(q.name, j, BUF_LEN, table.entries, true, oom);
    var r := WriteName(buf, j, q.name, table, oom);
    NameStored(buf[..], before, o.bytes, w.bytes, j, stack);
    if r < 0 {
      return Bad(r), j;
    }
    ghost var bytes := o.bytes + w.bytes;
    var ok := AppendField(buf, r, U16(q.qtype), bytes, stack);
    if ok {
      ok := AppendField(buf, r + 2, U16(q.qclass), bytes + U16(q.qtype), stack);
    }
    if !ok {
      StopsHere(IfRoom(bytes, U16(q.qtype)), |IfRoom(bytes, U16(q.qtype))|, buf[..], stack);
    }
    return if ok then Fine else Full, r + 4;
  }

  method AddOwner(buf: array<Byte>, j: nat, r: Record, table: LabelTable, oom: set<nat>, ghost o: Out, ghost stack: seq<Byte>)
    returns (st: Status, j': nat)
    requires buf.Length == BUF_LEN && NoNul(r.name) && !OwnerSpills(o, r)
    requires o.Going? && Shows(o, Fine, j, buf[..], table.entries, stack)
    modifies buf, table
    ensures Shows(PutOwner(o, r, oom), st, j', buf[..], table.entries, stack)
  {
    hide EncodeName, U16, U32, Spills;
    ghost var before, w := buf[..], EncodeName(r.name, j, BUF_LEN, table.entries, true, oom);
    var k := WriteName(buf, j, r.name, table, oom);
    ghost var bytes := o.bytes + w.bytes;
    NameStored(buf[..], before, o.bytes, w.bytes, j, stack);
    if k < 0 {
      StopsHere(bytes, |bytes|, buf[..], stack);
      return Full, j;
    }
    var ok := AddHeader(buf, k, r, bytes, stack);
    return if ok then Fine else Full, k + 8;
  }

  // Type, class and time to live.
  method AddHeader(buf: array<Byte>, j: nat, r: Record, ghost bytes: seq<Byte>, ghost stack: seq<Byte>) returns (ok: bool)
    requires buf.Length == BUF_LEN && 12 <= j && Prefix(bytes, j, buf[..], stack)
    modifies buf
    ensures ok == (j + 8 <= BUF_LEN)
    ensures ok ==> Prefix(bytes + U16(r.rtype) + U16(r.rclass) + U32(r.ttl), j + 8, buf[..], stack)
    ensures !ok ==> Filled(Overflow(IfRoom(IfRoom(bytes, U16(r.rtype)), U16(r.rclass))), Full, j, buf[..], stack)
  {
    hide U16, U32;
    ghost var b := IfRoom(bytes, U16(r.rtype));
    ok := AppendField(buf, j, U16(r.rtype), bytes, stack);
    if ok {
      ok := AppendField(buf, j + 2, U16(r.rclass), b, stack);
    }
    b := IfRoom(b, U16(r.rclass));
    if ok {
      ok := AppendField(buf, j + 4, U32(r.ttl), b, stack);
    }
    if !ok {
      StopsHere(b, |b|, buf[..], stack);
    }
  }

  // Room for the length is left open before a name; its two bytes are filled in once the name is written.
  method AddName(buf: array<Byte>, j: nat, name: seq<Byte>, table: LabelTable, oom: set<nat>, ghost o: Out, ghost stack: seq<Byte>)
    returns (st: Status, j': nat)
    requires buf.Length == BUF_LEN && NoNul(name) && !DataSpills(o, NameData(name))
    requires o.Going? && Shows(o, Fine, j, buf[..], table.entries, stack)
    modifies buf, table
    ensures Shows(PutData(o, NameData(name), oom), st, j', buf[..], table.entries, stack)
  {
    hide EncodeName, U16, Spills;
    assert Prefix(o.bytes, j, buf[..], stack);
    if j + 2 > buf.Length {
      NoRoom(name, j + 2, table.entries, oom);
      StopsHere(o.bytes, j, buf[..], stack);
      return Full, j;
    }
    ghost var before, w := buf[..], EncodeName(name, j + 2, BUF_LEN, table.entries, true, oom);
    var r := WriteName(buf, j + 2, name, table, oom);
    Parted(buf[..], before, w.bytes, j, stack);
    if r < 0 {
      return Full, j;
    }
    PutLength(buf, j, r);
    return Fine, r;
  }

  // What is in front of the two bytes left open, and what is behind the name.
  lemma Parted(now: seq<Byte>, before: seq<Byte>, bytes: seq<Byte>, j: nat, stack: seq<Byte>)
    requires |now| == |before| == |stack| && j + 2 + |bytes| <= |now| && before[j..] == stack[j..]
    requires now[..j + 2 + |bytes|] == before[..j + 2] + bytes && now[j + 2 + |bytes|..] == before[j + 2 + |bytes|..]
    ensures now[..j] == before[..j] && now[j] == stack[j]
    ensures now[j + 2..j + 2 + |bytes|] == bytes && now[j + 2 + |bytes|..] == stack[j + 2 + |bytes|..]
  {
    var r := j + 2 + |bytes|;
    assert now[..j] == now[..r][..j] && before[..j] == before[..j + 2][..j];
    assert now[j] == now[..r][j] && before[j] == before[j..][0] == stack[j..][0];
    assert now[j + 2..r] == now[..r][j + 2..];
    assert before[r..] == before[j..][r - j..] && stack[r..] == stack[j..][r - j..];
  }

  lemma NoRoom(name: seq<Byte>, j: nat, table: seq<Entry>, oom: set<nat>)
    requires j > BUF_LEN
    ensures EncodeName(name, j, BUF_LEN, table, true, oom).Failed?
  {
    EncodeBounds(name, j, BUF_LEN, table, true, oom);
  }

  // The length of what stands between j + 2 and r, in the two bytes in front of it.
  method PutLength(buf: array<Byte>, j: nat, r: nat)
    requires j + 2 <= r <= buf.Length
    modifies buf
    ensures buf[..r] == old(buf[..j]) + U16(r - (j + 2)) + old(buf[j + 2..r]) && buf[r..] == old(buf[r..])
  {
    hide U16;
    buf[j], buf[j + 1] := U16(r - (j + 2))[0], U16(r - (j + 2))[1];
  }

  method AddBytes(buf: array<Byte>, j: nat, bytes: seq<Byte>, table: LabelTable, ghost o: Out, ghost oom: set<nat>, ghost stack: seq<Byte>)
    returns (st: Status, j': nat)
    requires buf.Length == BUF_LEN
    requires o.Going? && Shows(o, Fine, j, buf[..], table.entries, stack)
    modifies buf
    ensures Shows(PutData(o, RawData(bytes), oom), st, j', buf[..], table.entries, stack)
  {
    hide U16;
    var ok := AppendField(buf, j, U16(|bytes|), o.bytes, stack);
    if ok {
      ok := AppendField(buf, j + 2, bytes, o.bytes + U16(|bytes|), stack);
    }
    if !ok {
      ghost var b := IfRoom(o.bytes, U16(|bytes|));
      StopsHere(b, |b|, buf[..], stack);
    }
    return if ok then Fine else Full, j + 2 + |bytes|;
  }

  method AddRecord(buf: array<Byte>, j: nat, r: Record, table: LabelTable, oom: set<nat>, ghost o: Out, ghost stack: seq<Byte>)
    returns (st: Status, j': nat)
    requires buf.Length == BUF_LEN && RecordOk(r) && !RecordSpills(o, r, oom)
    requires o.Going? && Shows(o, Fine, j, buf[..], table.entries, stack)
    modifies buf, table
    ensures Shows(PutRecord(o, r, oom), st, j', buf[..], table.entries, stack)
  {
    hide PutOwner, PutData, OwnerSpills;
    OwnerLonger(o, r, oom);
    st, j' := AddOwner(buf, j, r, table, oom, o, stack);
    if st != Fine {
      return;
    }
    ghost var k := PutOwner(o, r, oom);
    match r.data
    case NameData(name) =>
      st, j' := AddName(buf, j', name, table, oom, k, stack);
    case RawData(bytes) =>
      st, j' := AddBytes(buf, j', bytes, table, k, oom, stack);
  }

  lemma OwnerLonger(o: Out, r: Record, oom: set<nat>)
    requires o.Going?
    ensures !PutOwner(o, r, oom).Error? && |o.bytes| <= |PutOwner(o, r, oom).bytes|
    ensures !PutOwner(o, r, oom).Going? ==> PutRecord(o, r, oom) == PutOwner(o, r, oom)
  {
  }

  lemma {:induction false} LaterQuestions(o: Out, qs: seq<Question>, n: nat, k: nat, oom: set<nat>)
    requires n <= k <= |qs| && !PutQuestions(o, qs, n, oom).Going?
    ensures PutQuestions(o, qs, k, oom) == PutQuestions(o, qs, n, oom)
    decreases k
  {
    if n < k {
      LaterQuestions(o, qs, n, k - 1, oom);
    }
  }

  lemma {:induction false} LaterRecords(o: Out, rs: seq<Record>, n: nat, k: nat, oom: set<nat>)
    requires n <= k <= |rs| && !PutRecords(o, rs, n, oom).Going?
    ensures PutRecords(o, rs, k, oom) == PutRecords(o, rs, n, oom)
    decreases k
  {
    if n < k {
      LaterRecords(o, rs, n, k - 1, oom);
    }
  }

  // A request received from a client, and the parts of the reply collected for it.
  class ServerRequest {
    const transId: nat
    const flags: nat
    const questions: seq<Question>
    var answer: seq<Record>
    var authority: seq<Record>
    var additional: seq<Record>
    var response: Option<seq<Byte>>

    constructor (transId: nat, flags: nat, questions: seq<Question>)
      ensures Collected() == Reply(transId, flags, questions, [], [], []) && response == None
    {
      this.transId, this.flags, this.questions := transId, flags, questions;
      answer, authority, additional, response := [], [], [], None;
    }

    function Collected(): Reply
      reads this
    {
      Reply(transId, flags, questions, answer, authority, additional)
    }

    method AddQuestions(buf: array<Byte>, table: LabelTable, oom: set<nat>, ghost o: Out, ghost stack: seq<Byte>)
      returns (st: Status, j: nat)
      requires buf.Length == BUF_LEN && Collected().Ok() && !Spilled(PutQuestions(o, questions, |questions|, oom))
      requires o.Going? && Shows(o, Fine, 12, buf[..], table.entries, stack)
      modifies buf, table
      ensures Shows(PutQuestions(o, questions, |questions|, oom), st, j, buf[..], table.entries, stack)
    {
      hide PutQuestion, QuestionSpills;
      var i := 0;
      st, j := Fine, 12;
      while i < |questions|
        invariant 0 <= i <= |questions| && st.Fine?
        invariant Shows(PutQuestions(o, questions, i, oom), st, j, buf[..], table.entries, stack)
      {
        assert QuestionOk(questions[i]);
        ghost var p := PutQuestions(o, questions, i, oom);
        QuestionsInside(o, questions, i, |questions|, oom);
        QuestionsInside(o, questions, i + 1, |questions|, oom);
        QuestionRoom(p, questions[i], oom);
        st, j := AddQuestion(buf, j, questions[i], table, oom, p, stack);
        i := i + 1;
        if st != Fine {
          LaterQuestions(o, questions, i, |questions|, oom);
          return;
        }
      }
    }

    method AddRecords(buf: array<Byte>, from: nat, rs: seq<Record>, table: LabelTable, oom: set<nat>, ghost o: Out, ghost stack: seq<Byte>)
      returns (st: Status, j: nat)
      requires buf.Length == BUF_LEN && (forall i :: 0 <= i < |rs| ==> RecordOk(rs[i])) && !Spilled(PutRecords(o, rs, |rs|, oom))
      requires o.Going? && Shows(o, Fine, from, buf[..], table.entries, stack)
      modifies buf, table
      ensures Shows(PutRecords(o, rs, |rs|, oom), st, j, buf[..], table.entries, stack)
    {
      hide PutRecord, RecordSpills;
      var i := 0;
      st, j := Fine, from;
      while i < |rs|
        invariant 0 <= i <= |rs| && st.Fine?
        invariant Shows(PutRecords(o, rs, i, oom), st, j, buf[..], table.entries, stack)
      {
        ghost var p := PutRecords(o, rs, i, oom);
        RecordsInside(o, rs, i + 1, |rs|, oom);
        RecordRoom(p, rs[i], oom);
        st, j := AddRecord(buf, j, rs[i], table, oom, p, stack);
        i := i + 1;
        if st != Fine {
          LaterRecords(o, rs, i, |rs|, oom);
          return;
        }
      }
    }

    // Fills the buffer with the whole reply, or as much of it as goes in.
    method Fill(buf: array<Byte>, err: nat, oom: set<nat>) returns (st: Status, j: nat)
      requires buf.Length == BUF_LEN && err <= 15 && Collected().Ok() && !Spilled(Collected().Formatted(err, oom))
      modifies buf
      ensures Filled(Collected().Formatted(err, oom), st, j, buf[..], old(buf[..]))
    {
      hide PutQuestions, PutRecords;
      ghost var stack := buf[..];
      var table := new LabelTable();
      var reply := Collected();
      var ok := Append(buf, 0, reply.Header(err));
      ghost var o := Going(reply.Header(err), []);
      NoneYet(o, questions, oom);
      assert buf[..12] == reply.Header(err);
      RecordsInside(reply.AfterQuestions(err, oom), reply.Records(), 0, |reply.Records()|, oom);
      NoRecordsYet(reply.AfterQuestions(err, oom), reply.Records(), oom);
      st, j := AddQuestions(buf, table, oom, o, stack);
      if st.Fine? {
        st, j := AddRecords(buf, j, reply.Records(), table, oom, reply.AfterQuestions(err, oom), stack);
      } else {
        LaterSections(reply.AfterQuestions(err, oom), reply.Records(), oom);
      }
    }

    // evdns_server_request_format_response, on a stack frame that holds `stack` where its buffer is. It leaves that
    // buffer for a reply of which a name spills. A reply over 512 bytes, or too large for the buffer, is cut and
    // marked; the response replaces the collected records.
    method FormatResponse(err: int, memory: bool, oom: set<nat>, stack: seq<Byte>) returns (rc: int)
      requires Collected().Ok() && |stack| == BUF_LEN
      requires 0 <= err <= 15 ==> !ReplySpills(Collected(), err, oom)
      modifies this
      ensures !(0 <= err <= 15) ==> rc == -1 && unchanged(this)
      ensures 0 <= err <= 15 && old(Collected()).Formatted(err, oom).Error? ==>
        rc == old(Collected()).Formatted(err, oom).code && unchanged(this)
      ensures 0 <= err <= 15 && !old(Collected()).Formatted(err, oom).Error? ==>
        && Collected() == Reply(transId, flags, questions, [], [], [])
        && (!memory ==> rc == -1 && response == old(response))
        && (memory ==> rc == 0 && response.Some? && Sent(old(Collected()).Formatted(err, oom), stack, response.value))
      ensures 0 <= err <= 15 && memory && !old(Collected()).Formatted(err, oom).Error? ==>
        HasHeader(old(Collected()), response.value, err)
      ensures 0 <= err <= 15 && memory && FitsWhole(old(Collected()).Formatted(err, oom)) ==>
        rc == 0 && response.Some? && old(Collected()).HeldBy(response.value, err)
    {
      if err < 0 || err > 15 {
        return -1;
      }
      hide PutQuestions, PutRecords, Reply.HeldBy, Reply.Formatted, ReplySpills, Sent, FitsWhole, HasHeader;
      var m;
      rc, m := Compose(err, oom, stack);
      if rc != 0 {
        return;
      }
      answer, authority, additional := [], [], [];
      if !memory {
        return -1;
      }
      response := Some(m);
    }

    // Its part up to the allocation of the response.
    method Compose(err: nat, oom: set<nat>, stack: seq<Byte>) returns (rc: int, m: seq<Byte>)
      requires Collected().Ok() && |stack| == BUF_LEN && err <= 15 && !ReplySpills(Collected(), err, oom)
      ensures var o := Collected().Formatted(err, oom);
        if o.Error? then rc == o.code != 0
        else rc == 0 && Sent(o, stack, m) && HasHeader(Collected(), m, err) && (FitsWhole(o) ==> Collected().HeldBy(m, err))
    {
      hide PutQuestions, PutRecords, Reply.HeldBy, ReplySpills, HasHeader;
      SpilledExactly(Collected(), err, oom);
      var buf := new Byte[BUF_LEN](i requires 0 <= i < |stack| => stack[i]);
      assert buf[..] == stack;
      var st, j := Fill(buf, err, oom);
      ghost var o := Collected().Formatted(err, oom);
      if st.Bad? {
        return st.code, [];
      }
      if FitsWhole(o) {
        Collected().ReadsBack(err, oom);
      }
      var len := Cut(buf, st, j, o, stack);
      SentHasHeader(Collected(), err, oom, stack, buf[..len]);
      return 0, buf[..len];
    }
  }

  // The length of the response; a message that is too long is marked.
  method Cut(buf: array<Byte>, st: Status, j: nat, ghost o: Out, ghost stack: seq<Byte>) returns (len: nat)
    requires Filled(o, st, j, buf[..], stack) && !o.Error?
    modifies buf
    ensures len <= buf.Length && Sent(o, stack, buf[..len])
  {
    len := j;
    if st.Full? || j > MAX_UDP_LEN {
      len := MAX_UDP_LEN;
      buf[2] := SetTruncated(buf[2]);
    }
  }

  // The byte (b | 0x02).
  function SetTruncated(b: Byte): (r: Byte)
    ensures (r as int / 2) % 2 == 1
    ensures r as int / 4 == b as int / 4 && r % 2 == b % 2
  {
    if (b as int / 2) % 2 == 1 then b else b + 2
  }

  ghost predicate FitsWhole(o: Out) {
    o.Going? && |o.bytes| <= MAX_UDP_LEN
  }

  // What goes out for the outcome o: the message itself, or 512 bytes marked as truncated. Of these the ones that o
  // has are sent as they are, and the one where o stopped is what the stack held before.
  ghost predicate Sent(o: Out, stack: seq<Byte>, m: seq<Byte>)
    requires |stack| == BUF_LEN && !o.Error?
  {
    if FitsWhole(o) then m == o.bytes
    else
      && |m| == MAX_UDP_LEN && 12 <= |o.bytes|
      && m[2] == SetTruncated(o.bytes[2])
      && (forall i :: 0 <= i < MAX_UDP_LEN && i < |o.bytes| && i != 2 ==> m[i] == o.bytes[i])
      && (|o.bytes| < MAX_UDP_LEN ==> m[|o.bytes|] == stack[|o.bytes|])
  }

  // The header of a response is that of the reply, but for the mark of one that is cut.
  ghost predicate HasHeader(r: Reply, m: seq<Byte>, err: nat)
    requires err <= 15
  {
    12 <= |m| && exists b: Byte :: HeaderBut(r, m, err, b)
  }

  ghost predicate HeaderBut(r: Reply, m: seq<Byte>, err: nat, b: Byte)
    requires err <= 15 && 12 <= |m|
  {
    (m[2] == b || m[2] == SetTruncated(b)) && r.Headed(m[..12][2 := b], err)
  }

  lemma SentHasHeader(r: Reply, err: nat, oom: set<nat>, stack: seq<Byte>, m: seq<Byte>)
    requires err <= 15 && |stack| == BUF_LEN && !r.Formatted(err, oom).Error? && Sent(r.Formatted(err, oom), stack, m)
    ensures HasHeader(r, m, err)
  {
    hide Reply.Headed, Reply.Formatted, SetTruncated;
    r.HeaderStays(err, oom);
    var b := r.Formatted(err, oom).bytes[2];
    assert m[..12][2 := b] == r.Formatted(err, oom).bytes[..12];
    assert HeaderBut(r, m, err, b);
  }

  // What goes out does not depend on what the stack held.
  ghost predicate OnlyTheReply(o: Out)
    requires !o.Error?
  {
    forall stack, stack', m, m' :: |stack| == |stack'| == BUF_LEN && Sent(o, stack, m) && Sent(o, stack', m') ==> m == m'
  }

  // Every byte sent was written if and only if the reply fits whole or has got as far as 512 bytes.
  lemma AllWritten(o: Out)
    requires !o.Error? && 12 <= |o.bytes|
    ensures OnlyTheReply(o) <==> FitsWhole(o) || MAX_UDP_LEN <= |o.bytes|
  {
    if FitsWhole(o) || MAX_UDP_LEN <= |o.bytes| {
      forall stack, stack', m, m' | |stack| == |stack'| == BUF_LEN && Sent(o, stack, m) && Sent(o, stack', m')
        ensures m == m'
      {
      }
    } else {
      var _ := SentOver(o, 0);
      var _ := SentOver(o, 1);
    }
  }

  // What goes out over a stack of bytes b.
  lemma SentOver(o: Out, b: Byte) returns (m: seq<Byte>)
    requires !o.Error? && 12 <= |o.bytes| < MAX_UDP_LEN && !FitsWhole(o)
    ensures Sent(o, seq(BUF_LEN, _ => b), m) && m[|o.bytes|] == b
  {
    m := o.bytes[..2] + [SetTruncated(o.bytes[2])] + o.bytes[3..] + seq(MAX_UDP_LEN - |o.bytes|, _ => b);
  }

  // An owner name whose only label has 64 bytes: 500 of the bytes sent were never written.
  lemma StackIsSent()
    ensures var name: seq<Byte> := seq(64, _ => 97 as Byte);
      var o := Reply(1, 0, [], [Record(name, 1, 1, 0, RawData([]))], [], []).Formatted(0, {});
      !o.Error? && |o.bytes| == 12 && !OnlyTheReply(o)
  {
    hide OnlyTheReply;
    var name: seq<Byte> := seq(64, _ => 97 as Byte);
    var r := Reply(1, 0, [], [Record(name, 1, 1, 0, RawData([]))], [], []);
    var o := r.Formatted(0, {});
    IndexOfDotIsFirst(name);
    assert EncodeName(name, 12, BUF_LEN, [], true, {}) == Failed(-1, [], []);
    assert r.AfterQuestions(0, {}) == Going(r.Header(0), []);
    assert o == PutRecord(PutRecords(Going(r.Header(0), []), r.Records(), 0, {}), r.Records()[0], {});
    AllWritten(o);
  }

  lemma NoneYet(o: Out, qs: seq<Question>, oom: set<nat>)
    ensures PutQuestions(o, qs, 0, oom) == o
  {
  }

  lemma NoRecordsYet(o: Out, rs: seq<Record>, oom: set<nat>)
    ensures PutRecords(o, rs, 0, oom) == o
  {
  }

  lemma LaterSections(o: Out, rs: seq<Record>, oom: set<nat>)
    requires !o.Going?
    ensures PutRecords(o, rs, |rs|, oom) == o
  {
    LaterRecords(o, rs, 0, |rs|, oom);
  }
}
