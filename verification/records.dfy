// Streams of tagged records in byte buffers.
module Records {
  import opened Bytes
  import opened Buffers
  import opened Tagging

  datatype Record = Record(tag: nat, payload: seq<Byte>) {
    predicate Valid() {
      tag < TWO32 && |payload| < TWO32
    }
  }

  // The first record of a run of bytes, and what follows it.
  datatype Taken = Taken(record: Record, rest: seq<Byte>)

  // What comes before a payload: its tag and its length.
  datatype Head = Head(tag: nat, length: nat)

  function DecodeHead(s: seq<Byte>): Option<Head> {
    match DecodeTag(s)
    case None => None
    case Some(t) =>
      match DecodeInt(s[t.length..])
      case None => None
      case Some(n) => Some(Head(t.number, n.number))
  }

  // The rest of s once its head, or as much of it as can be read, is gone.
  function AfterHead(s: seq<Byte>): seq<Byte> {
    match DecodeTag(s)
    case None => s
    case Some(t) =>
      match DecodeInt(s[t.length..])
      case None => s[t.length..]
      case Some(n) => s[t.length..][n.length..]
  }

  function Take(s: seq<Byte>): Option<Taken> {
    var head, body := DecodeHead(s), AfterHead(s);
    if head.None? || |body| < head.value.length then None
    else Some(Taken(Record(head.value.tag, body[..head.value.length]), body[head.value.length..]))
  }

  // What evtag_marshal writes.
  function Written(r: Record): seq<Byte>
    requires r.Valid()
  {
    EncodeTag(r.tag) + EncodedInt(|r.payload|) + r.payload
  }

  lemma RecordReadsBack(r: Record, rest: seq<Byte>)
    requires r.Valid()
    ensures Take(Written(r) + rest) == Some(Taken(r, rest))
  {
    hide EncodeTag, EncodedInt, DecodeTag, DecodeInt;
    var t, n, p := EncodeTag(r.tag), EncodedInt(|r.payload|), r.payload;
    assert Written(r) + rest == t + (n + (p + rest));
    TagReadsBack(r.tag, n + (p + rest));
    assert (t + (n + (p + rest)))[|t|..] == n + (p + rest);
    IntReadsBack(n, |p|, p + rest);
    assert (n + (p + rest))[|n|..] == p + rest;
    assert (p + rest)[..|p|] == p && (p + rest)[|p|..] == rest;
  }

  // ---------- Streams ----------

  function Stream(rs: seq<Record>): seq<Byte>
    requires forall i :: 0 <= i < |rs| ==> rs[i].Valid()
  {
    if rs == [] then [] else Written(rs[0]) + Stream(rs[1..])
  }

  datatype Reading = Reading(records: seq<Record>, rest: seq<Byte>)

  // What n calls of evtag_unmarshal give, if none of them fails.
  function TakeMany(s: seq<Byte>, n: nat): Option<Reading> {
    if n == 0 then Some(Reading([], s))
    else
      match Take(s)
      case None => None
      case Some(t) =>
        match TakeMany(t.rest, n - 1)
        case None => None
        case Some(more) => Some(Reading([t.record] + more.records, more.rest))
  }

  // As many reads as there are records return just these, and leave what comes after them alone.
  lemma {:induction false} StreamReadsBack(rs: seq<Record>, rest: seq<Byte>)
    requires forall i :: 0 <= i < |rs| ==> rs[i].Valid()
    ensures TakeMany(Stream(rs) + rest, |rs|) == Some(Reading(rs, rest))
  {
    if rs == [] {
      assert [] + rest == rest;
    } else {
      hide Take, Written, Record.Valid, TakeMany;
      var r, more := rs[0], rs[1..];
      StreamReadsBack(more, rest);
      RecordReadsBack(r, Stream(more) + rest);
      Associate(Written(r), Stream(more), rest);
      TakeOneMore(Stream(rs) + rest, r, Stream(more) + rest, more, rest);
      assert rs == [r] + more;
    }
  }

  lemma TakeOneMore(s: seq<Byte>, r: Record, t: seq<Byte>, more: seq<Record>, rest: seq<Byte>)
    requires Take(s) == Some(Taken(r, t)) && TakeMany(t, |more|) == Some(Reading(more, rest))
    ensures TakeMany(s, |more| + 1) == Some(Reading([r] + more, rest))
  {
    hide Take;
  }

  // ---------- On buffers ----------

  // encode_int and evbuffer_add, whose failure nobody looks at.
  method AddInt(buf: Buffer, number: nat, memory: bool) returns (ghost added: bool)
    requires buf.Valid() && number < TWO32 && buf.off + 5 <= buf.sizeMax
    modifies buf, buf.orig
    ensures buf.Valid() && (memory ==> added)
    ensures buf.Contents() == old(buf.Contents()) + Piece(EncodedInt(number), added) && |EncodedInt(number)| <= 5
    ensures buf.orig == old(buf.orig) || fresh(buf.orig)
  {
    hide EncodedInt, Buffer.Contents, Buffer.CannotExpand, Buffer.Told, Chained;
    var data := EncodeInt(number);
    var r := buf.Add(data, memory);
    added := r == 0;
  }

  method AddTag(buf: Buffer, tag: nat, memory: bool) returns (ghost added: bool)
    requires buf.Valid() && tag < TWO32 && buf.off + 5 <= buf.sizeMax
    modifies buf, buf.orig
    ensures buf.Valid() && (memory ==> added)
    ensures buf.Contents() == old(buf.Contents()) + Piece(EncodeTag(tag), added) && |EncodeTag(tag)| <= 5
    ensures buf.orig == old(buf.orig) || fresh(buf.orig)
  {
    hide EncodeTag, Buffer.Contents, Buffer.CannotExpand, Buffer.Told, Chained;
    var data := WriteTag(tag);
    var r := buf.Add(data, memory);
    added := r == 0;
  }

  function Piece(s: seq<Byte>, added: bool): (p: seq<Byte>)
    ensures |p| <= |s|
  {
    if added then s else []
  }

  // What is left of a record in the buffer when some of its three parts could not be added.
  function Pieces(r: Record, tag: bool, length: bool, payload: bool): seq<Byte>
    requires r.Valid()
  {
    Piece(EncodeTag(r.tag), tag) + Piece(EncodedInt(|r.payload|), length) + Piece(r.payload, payload)
  }

  // A record that is written without a failure is whole, and no other is.
  lemma WholeIfAllAdded(r: Record, tag: bool, length: bool, payload: bool)
    requires r.Valid()
    ensures Pieces(r, tag, length, payload) == Written(r) <==> tag && length && (payload || r.payload == [])
  {
  }

  // evtag_marshal. Its parts are added one by one, whatever becomes of the ones before.
  method Marshal(buf: Buffer, r: Record, tagMemory: bool, lengthMemory: bool, payloadMemory: bool)
    returns (ghost tag: bool, ghost length: bool, ghost payload: bool)
    requires buf.Valid() && r.Valid() && buf.off + 10 + |r.payload| <= buf.sizeMax
    modifies buf, buf.orig
    ensures buf.Valid() && (tagMemory ==> tag) && (lengthMemory ==> length) && (payloadMemory ==> payload)
    ensures buf.Contents() == old(buf.Contents()) + Pieces(r, tag, length, payload)
    ensures buf.orig == old(buf.orig) || fresh(buf.orig)
  {
    hide EncodeTag, EncodedInt, Piece, Buffer.Contents, Buffer.CannotExpand, Buffer.Told, Chained;
    ghost var before := buf.Contents();
    tag := AddTag(buf, r.tag, tagMemory);
    length := AddInt(buf, |r.payload|, lengthMemory);
    payload := AddLast(buf, r.payload, payloadMemory);
    RecordAppended(before, Piece(EncodeTag(r.tag), tag), Piece(EncodedInt(|r.payload|), length), Piece(r.payload, payload));
  }

  method AddLast(buf: Buffer, data: seq<Byte>, memory: bool) returns (ghost added: bool)
    requires buf.Valid() && buf.off + |data| <= buf.sizeMax
    modifies buf, buf.orig
    ensures buf.Valid() && (memory ==> added)
    ensures buf.Contents() == old(buf.Contents()) + Piece(data, added)
    ensures buf.orig == old(buf.orig) || fresh(buf.orig)
  {
    hide Buffer.Contents, Buffer.CannotExpand, Buffer.Told, Chained;
    var r := buf.Add(data, memory);
    added := r == 0;
  }

  // decode_tag_internal
  method GetTag(buf: Buffer, drain: bool) returns (t: Option<Int>)
    requires buf.Valid()
    modifies buf`buffer, buf`misalign, buf`off, buf`reports
    ensures buf.Valid() && t == DecodeTag(old(buf.Contents()))
    ensures buf.Contents() == if drain && t.Some? then old(buf.Contents())[t.value.length..] else old(buf.Contents())
  {
    hide DecodeTag;
    var data := buf.Front(buf.off);
    assert data == buf.Contents();
    t := ReadTag(data);
    if t.Some? && drain {
      buf.Drain(t.value.length);
      assert data[|data|..] == [];
    }
  }

  // decode_int_internal
  method GetInt(buf: Buffer) returns (n: Option<Int>)
    requires buf.Valid()
    modifies buf`buffer, buf`misalign, buf`off, buf`reports
    ensures buf.Valid() && n == DecodeInt(old(buf.Contents()))
    ensures buf.Contents() == if n.Some? then old(buf.Contents())[n.value.length..] else old(buf.Contents())
  {
    hide DecodeInt;
    var data := buf.Front(buf.off);
    assert data == buf.Contents();
    n := ReadInt(data);
    if n.Some? {
      buf.Drain(n.value.length);
      assert data[|data|..] == [];
    }
  }

  // The head of a record is read and removed.
  method GetHead(buf: Buffer) returns (h: Option<Head>)
    requires buf.Valid()
    modifies buf`buffer, buf`misalign, buf`off, buf`reports
    ensures buf.Valid() && h == DecodeHead(old(buf.Contents())) && buf.Contents() == AfterHead(old(buf.Contents()))
    ensures buf.off <= old(buf.off)
  {
    hide DecodeTag, DecodeInt;
    var t := GetTag(buf, true);
    if t.None? {
      return None;
    }
    var n := GetInt(buf);
    if n.None? {
      return None;
    }
    return Some(Head(t.value.number, n.value.number));
  }

  // evtag_unmarshal: takes the first record off src and adds its payload to dst. When it fails, dst is as it was,
  // and src has lost no more than the head.
  method Unmarshal(src: Buffer, dst: Buffer, memory: bool) returns (r: int, tag: nat)
    requires src.Valid() && dst.Valid() && src != dst && src.orig != dst.orig && src.off < 0x8000_0000 <= dst.sizeMax
    modifies src`buffer, src`misalign, src`off, src`reports, dst, dst.orig
    ensures src.Valid() && dst.Valid() && (dst.orig == old(dst.orig) || fresh(dst.orig))
    ensures r != -1 ==>
      && var t := Take(old(src.Contents()));
      && t.Some? && t.value == Taken(Record(tag, t.value.record.payload), src.Contents())
      && dst.Contents() == old(dst.Contents()) + t.value.record.payload && r == |t.value.record.payload|
    ensures r == -1 ==> dst.Contents() == old(dst.Contents()) && src.Contents() == AfterHead(old(src.Contents()))
    ensures memory && old(dst.off) + old(src.off) <= dst.sizeMax ==> (r == -1 <==> Take(old(src.Contents())).None?)
  {
    hide DecodeHead, AfterHead, Buffer.Contents, Buffer.CannotExpand, Buffer.Told, Chained;
    var h := GetHead(src);
    if h.None? {
      return -1, 0;
    }
    var len := h.value.length;
    if src.off < len {
      return -1, 0;
    }
    var data := src.Front(len);
    var res := dst.Add(data, memory);
    if res == -1 {
      return -1, 0;
    }
    src.Drain(len);
    r, tag := len, h.value.tag;
    assert data[|data|..] == [];
  }

  // evtag_consume
  method Consume(buf: Buffer) returns (r: int)
    requires buf.Valid()
    modifies buf`buffer, buf`misalign, buf`off, buf`reports
    ensures buf.Valid() && r == if DecodeHead(old(buf.Contents())).Some? then 0 else -1
    ensures buf.Contents() == if r == 0 then AfterRecord(old(buf.Contents())) else AfterHead(old(buf.Contents()))
  {
    hide DecodeHead, AfterHead;
    var h := GetHead(buf);
    if h.None? {
      return -1;
    }
    buf.Drain(h.value.length);
    return 0;
  }

  // What evtag_consume leaves: a length past the end takes all there is.
  function AfterRecord(s: seq<Byte>): seq<Byte>
    requires DecodeHead(s).Some?
  {
    var body, n := AfterHead(s), DecodeHead(s).value.length;
    if n >= |body| then [] else body[n..]
  }

  // evtag_peek_length: the length of the first record with its head, in 32 bits.
  function PeekLength(s: seq<Byte>): Option<nat> {
    if DecodeHead(s).None? then None
    else Some((DecodeHead(s).value.length + |s| - |AfterHead(s)|) % TWO32)
  }

  method PeekRecordLength(buf: Buffer) returns (length: Option<nat>)
    requires buf.Valid()
    ensures length == PeekLength(buf.Contents())
  {
    hide DecodeTag, DecodeInt;
    var data := buf.Front(buf.off);
    assert data == buf.Contents();
    var t := ReadTag(data);
    if t.None? {
      return None;
    }
    var n := ReadInt(data[t.value.length..]);
    if n.None? {
      return None;
    }
    return Some((n.value.number + n.value.length + t.value.length) % TWO32);
  }

  // The length that is peeked is the number of bytes evtag_consume removes exactly when the record is all there.
  lemma PeekIsConsume(s: seq<Byte>)
    requires |s| < 0x8000_0000 && DecodeHead(s).Some?
    ensures PeekLength(s).value == |s| - |AfterRecord(s)| <==> Take(s).Some?
  {
    hide DecodeHead, AfterHead;
    HeadBounds(s);
  }

  lemma HeadBounds(s: seq<Byte>)
    requires DecodeHead(s).Some?
    ensures |AfterHead(s)| <= |s| && DecodeHead(s).value.length < TWO32
  {
    var t := DecodeTag(s).value;
    ValueFits(s[t.length..], 1, Nibble(s[t.length..], 0) + 1);
    assert Pow16(2) == 256 && Pow16(4) == 65536 && Pow16(6) == 0x100_0000;
    PowerGrows(Nibble(s[t.length..], 0) + 1, 8);
  }

  lemma {:induction false} PowerGrows(j: nat, k: nat)
    requires j <= k
    ensures 0 < Pow16(j) <= Pow16(k)
    decreases k
  {
    if j < k {
      PowerGrows(j, k - 1);
    } else if j > 0 {
      PowerGrows(j - 1, k - 1);
    }
  }

  lemma {:induction false} ValueFits(s: seq<Byte>, k: nat, n: nat)
    requires n / 2 < |s| && k <= n + 1
    ensures Value(s, k, n) < Pow16(n + 1 - k)
    decreases n + 1 - k
  {
    if k <= n {
      ValueFits(s, k + 1, n);
    }
  }

  // ---------- Integers and times as payloads, by way of the scratch buffer ----------

  ghost predicate Apart(buf: Buffer, scratch: Buffer)
    reads buf, scratch
  {
    buf.Valid() && scratch.Valid() && buf != scratch && buf.orig != scratch.orig && buf.sizeMax == scratch.sizeMax
  }

  // The scratch buffer holds just this integer, if it could be added.
  method ScratchInt(scratch: Buffer, integer: nat, memory: bool) returns (ghost added: bool)
    requires scratch.Valid() && integer < TWO32 && 5 <= scratch.sizeMax
    modifies scratch, scratch.orig
    ensures scratch.Valid() && scratch.Contents() == Piece(EncodedInt(integer), added) && (memory ==> added)
    ensures scratch.orig == old(scratch.orig) || fresh(scratch.orig)
  {
    hide EncodedInt, Piece, Buffer.Contents, Buffer.CannotExpand, Buffer.Told, Chained;
    scratch.Drain(scratch.off);
    assert scratch.Contents() == [];
    added := AddInt(scratch, integer, memory);
    assert [] + Piece(EncodedInt(integer), added) == Piece(EncodedInt(integer), added);
  }

  // evtag_marshal_int; `memory` is that of each of its four additions.
  method MarshalInt(buf: Buffer, tag: nat, integer: nat, scratch: Buffer, memory: seq<bool>)
    returns (ghost number: bool, ghost t: bool, ghost length: bool, ghost payload: bool)
    requires Apart(buf, scratch) && tag < TWO32 && integer < TWO32 && buf.off + 15 <= buf.sizeMax && |memory| == 4
    modifies buf, buf.orig, scratch, scratch.orig
    ensures Apart(buf, scratch)
    ensures (memory[0] ==> number) && (memory[1] ==> t) && (memory[2] ==> length) && (memory[3] ==> payload)
    ensures scratch.Contents() == Piece(Piece(EncodedInt(integer), number), !payload)
    ensures |EncodedInt(integer)| <= 5
    ensures buf.Contents() == old(buf.Contents()) + Pieces(Record(tag, Piece(EncodedInt(integer), number)), t, length, payload)
  {
    hide EncodedInt, EncodeTag, Piece, Buffer.Contents, Buffer.CannotExpand, Buffer.Told, Chained;
    ghost var before := buf.Contents();
    FiveBytes(integer);
    number := ScratchInt(scratch, integer, memory[0]);
    ghost var p := Piece(EncodedInt(integer), number);
    t := AddTag(buf, tag, memory[1]);
    length := AddInt(buf, scratch.off, memory[2]);
    payload := AddScratch(buf, scratch, memory[3]);
    RecordAppended(before, Piece(EncodeTag(tag), t), Piece(EncodedInt(|p|), length), Piece(p, payload));
  }

  lemma FiveBytes(integer: nat)
    requires integer < TWO32
    ensures |EncodedInt(integer)| <= 5
  {
  }

  // evbuffer_add_buffer
  method AddScratch(buf: Buffer, scratch: Buffer, memory: bool) returns (ghost added: bool)
    requires Apart(buf, scratch) && buf.off + scratch.off <= buf.sizeMax
    modifies buf, buf.orig, scratch, scratch.orig
    ensures Apart(buf, scratch) && (memory ==> added)
    ensures buf.Contents() == old(buf.Contents()) + Piece(old(scratch.Contents()), added)
    ensures scratch.Contents() == Piece(old(scratch.Contents()), !added)
  {
    hide Buffer.CannotExpand, Buffer.Told, Chained;
    var r := buf.AddBuffer(scratch, memory);
    added := r == 0;
  }

  lemma RecordAppended(s: seq<Byte>, t: seq<Byte>, n: seq<Byte>, p: seq<Byte>)
    ensures s + t + n + p == s + (t + n + p)
  {
  }

  // evtag_unmarshal_int
  method UnmarshalInt(buf: Buffer, needTag: nat, scratch: Buffer, memory: bool) returns (r: int, integer: nat)
    requires Apart(buf, scratch) && buf.off < 0x8000_0000 <= scratch.sizeMax
    modifies buf`buffer, buf`misalign, buf`off, buf`reports, scratch, scratch.orig
    ensures Apart(buf, scratch)
    ensures r == 0 ==> HoldsInt(old(buf.Contents()), needTag)
    ensures r == 0 ==>
      && var t := Take(old(buf.Contents())).value;
      && buf.Contents() == t.rest && integer == DecodeInt(t.record.payload).value.number
    ensures memory ==> (r == 0 <==> HoldsInt(old(buf.Contents()), needTag))
  {
    hide DecodeTag, DecodeInt, Buffer.Contents, Buffer.CannotExpand, Buffer.Told, Chained;
    var t := GetTag(buf, true);
    if t.None? || needTag != t.value.number {
      return -1, 0;
    }
    var n := GetInt(buf);
    if n.None? || buf.off < n.value.number {
      return -1, 0;
    }
    ghost var body := buf.Contents();
    var moved := Move(buf, n.value.number, scratch, memory);
    if !moved {
      return -1, 0;
    }
    assert buf.Contents() == body[n.value.number..];
    var i := GetInt(scratch);
    if i.None? {
      return -1, 0;
    }
    return 0, i.value.number;
  }

  // The payload of n bytes goes to the scratch buffer, which holds nothing else then.
  method Move(buf: Buffer, n: nat, scratch: Buffer, memory: bool) returns (ok: bool)
    requires Apart(buf, scratch) && n <= buf.off < 0x8000_0000 <= scratch.sizeMax
    modifies buf`buffer, buf`misalign, buf`off, buf`reports, scratch, scratch.orig
    ensures Apart(buf, scratch) && (memory ==> ok)
    ensures ok ==> scratch.Contents() == old(buf.Contents())[..n] && buf.Contents() == old(buf.Contents())[n..]
  {
    hide Buffer.Contents, Buffer.CannotExpand, Buffer.Told, Chained;
    scratch.Drain(scratch.off);
    var data := buf.Front(n);
    var res := scratch.Add(data, memory);
    if res == -1 {
      return false;
    }
    assert [] + data == data;
    buf.Drain(n);
    ghost var s := old(buf.Contents());
    assert s[|s|..] == [];
    return true;
  }

  predicate HoldsInt(s: seq<Byte>, tag: nat) {
    Take(s).Some? && Take(s).value.record.tag == tag && DecodeInt(Take(s).value.record.payload).Some?
  }

  // What evtag_marshal_int writes, evtag_unmarshal_int with the same tag reads.
  lemma IntRecordReadsBack(tag: nat, integer: nat, rest: seq<Byte>)
    requires tag < TWO32 && integer < TWO32
    ensures var s := Written(Record(tag, EncodedInt(integer))) + rest;
      && HoldsInt(s, tag) && Take(s).value.rest == rest
      && DecodeInt(Take(s).value.record.payload).value.number == integer
  {
    var r := Record(tag, EncodedInt(integer));
    RecordReadsBack(r, rest);
    IntReadsBack(r.payload, integer, []);
    assert r.payload + [] == r.payload;
  }

  // evtag_marshal_timeval takes 32 bits of each part, evtag_unmarshal_timeval reads two numbers.
  function TimePayload(sec: int, usec: int): seq<Byte> {
    EncodedInt(sec % TWO32) + EncodedInt(usec % TWO32)
  }

  function TimeOf(payload: seq<Byte>): Option<(nat, nat)> {
    match DecodeInt(payload)
    case None => None
    case Some(s) =>
      match DecodeInt(payload[s.length..])
      case None => None
      case Some(u) => Some((s.number, u.number))
  }

  // A time comes back as it was exactly when both parts are numbers of 32 bits.
  lemma TimeReadsBack(sec: int, usec: int)
    ensures TimeOf(TimePayload(sec, usec)) == Some((sec % TWO32, usec % TWO32))
    ensures TimeOf(TimePayload(sec, usec)) == Some((sec as int, usec as int)) <==> 0 <= sec < TWO32 && 0 <= usec < TWO32
  {
    hide EncodedInt, DecodeInt;
    TwoReadBack(sec % TWO32, usec % TWO32);
  }

  lemma TwoReadBack(a: nat, b: nat)
    requires a < TWO32 && b < TWO32
    ensures TimeOf(EncodedInt(a) + EncodedInt(b)) == Some((a, b))
  {
    hide EncodedInt, DecodeInt;
    var s, u := EncodedInt(a), EncodedInt(b);
    IntReadsBack(s, a, u);
    IntReadsBack(u, b, []);
    assert u + [] == u && (s + u)[|s|..] == u;
  }

  // What the scratch buffer holds of a time.
  function TimePieces(sec: int, usec: int, first: bool, second: bool): seq<Byte> {
    Piece(EncodedInt(sec % TWO32), first) + Piece(EncodedInt(usec % TWO32), second)
  }

  lemma TimeWhole(sec: int, usec: int)
    ensures TimePieces(sec, usec, true, true) == TimePayload(sec, usec)
  {
  }

  // evtag_marshal_timeval; `memory` is that of each of its five additions.
  method MarshalTime(buf: Buffer, tag: nat, sec: int, usec: int, scratch: Buffer, memory: seq<bool>)
    returns (ghost first: bool, ghost second: bool, ghost t: bool, ghost length: bool, ghost payload: bool)
    requires Apart(buf, scratch) && tag < TWO32 && buf.off + 20 <= buf.sizeMax && |memory| == 5
    modifies buf, buf.orig, scratch, scratch.orig
    ensures buf.Valid() && scratch.Valid() && |TimePieces(sec, usec, first, second)| <= 10
    ensures first && second ==> TimePieces(sec, usec, first, second) == TimePayload(sec, usec)
    ensures (memory[0] ==> first) && (memory[1] ==> second) && (memory[2] ==> t) && (memory[3] ==> length) && (memory[4] ==> payload)
    ensures buf.Contents() == old(buf.Contents()) + Pieces(Record(tag, TimePieces(sec, usec, first, second)), t, length, payload)
  {
    hide EncodedInt, EncodeTag, Pieces, Piece, Buffer.Contents, Buffer.CannotExpand, Buffer.Told, Chained;
    FiveBytes(sec % TWO32);
    TimeWhole(sec, usec);
    first := ScratchInt(scratch, sec % TWO32, memory[0]);
    second := AddInt(scratch, usec % TWO32, memory[1]);
    var data := scratch.Front(scratch.off);
    assert data == TimePieces(sec, usec, first, second);
    t, length, payload := Marshal(buf, Record(tag, data), memory[2], memory[3], memory[4]);
  }

  // evtag_unmarshal_timeval
  method UnmarshalTime(buf: Buffer, needTag: nat, scratch: Buffer, memory: bool) returns (r: int, sec: nat, usec: nat)
    requires Apart(buf, scratch) && buf.off < 0x8000_0000 <= scratch.sizeMax
    modifies buf`buffer, buf`misalign, buf`off, buf`reports, scratch, scratch.orig
    ensures buf.Valid() && scratch.Valid()
    ensures r == 0 ==>
      && var t := Take(old(buf.Contents()));
      && t.Some? && t.value.record.tag == needTag && buf.Contents() == t.value.rest
      && TimeOf(t.value.record.payload) == Some((sec, usec))
    ensures memory && r != 0 ==>
      var t := Take(old(buf.Contents())); t.None? || t.value.record.tag != needTag || TimeOf(t.value.record.payload).None?
  {
    hide DecodeInt, Take, Buffer.Contents, Buffer.CannotExpand, Buffer.Told, Chained;
    scratch.Drain(scratch.off);
    var res, tag := Unmarshal(buf, scratch, memory);
    if res == -1 || tag != needTag {
      return -1, 0, 0;
    }
    ghost var payload := Take(old(buf.Contents())).value.record.payload;
    assert [] + payload == payload;
    var s := GetInt(scratch);
    if s.None? {
      return -1, 0, 0;
    }
    var u := GetInt(scratch);
    if u.None? {
      return -1, 0, 0;
    }
    return 0, s.value.number, u.value.number;
  }
}
