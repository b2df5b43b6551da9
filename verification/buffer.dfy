// The byte buffer of buffer.c: a run of bytes somewhere inside an array that grows.
module Buffers {
  import opened Bytes
  import opened Lines

  // One call of the buffer's callback: the length before and after a change.
  datatype Report = Report(before: nat, after: nat)

  // Each report starts from the length at which the one before it left off.
  ghost predicate Chained(from: nat, rs: seq<Report>, to: nat) {
    if rs == [] then from == to
    else rs[|rs| - 1].after == to && Chained(from, rs[..|rs| - 1], rs[|rs| - 1].before)
  }

  lemma ChainGrows(from: nat, rs: seq<Report>, mid: nat, to: nat)
    requires Chained(from, rs, mid)
    ensures Chained(from, rs + [Report(mid, to)], to)
  {
    assert (rs + [Report(mid, to)])[..|rs|] == rs;
  }

  // In a chain every report starts where the one before it ended, and the last ends at the present length.
  lemma {:induction false} ChainIsUnbroken(from: nat, rs: seq<Report>, to: nat)
    requires Chained(from, rs, to)
    ensures forall i :: 0 < i < |rs| ==> rs[i].before == rs[i - 1].after
    ensures rs != [] ==> rs[0].before == from && rs[|rs| - 1].after == to
    ensures rs == [] ==> from == to
  {
    if rs != [] {
      ChainIsUnbroken(from, rs[..|rs| - 1], rs[|rs| - 1].before);
    }
  }

  // A line end is one byte, or two when a CR and a LF come together in either order.
  function LineEndLength(s: seq<Byte>, i: nat): nat
    requires i < |s|
  {
    if i + 1 < |s| && IsEol(s[i + 1]) && s[i + 1] != s[i] then 2 else 1
  }

  // Reading s leaves rest: the line before the first end-of-line byte is gone, and its end with it.
  predicate LineRead(s: seq<Byte>, line: seq<Byte>, rest: seq<Byte>) {
    var i := |line|;
    && i < |s| && IsEol(s[i]) && (forall j :: 0 <= j < i ==> line[j] == s[j] && !IsEol(s[j]))
    && rest == s[i + LineEndLength(s, i)..]
  }

  const MAX_READ: int := 4096

  // How much evbuffer_read asks of the descriptor: no more than it is told, and a bounded amount when a lot is
  // waiting. `waiting` is what FIONREAD gives.
  function ReadLimit(waiting: Option<int>, howmuch: int, totallen: nat, sizeMax: nat): (n: int)
    ensures 0 <= n && (howmuch != 0 ==> 0 < n)
    ensures howmuch >= 0 ==> n <= howmuch
  {
    var n :=
      if waiting.None? || waiting.value <= 0 then MAX_READ
      else if waiting.value > MAX_READ && waiting.value > howmuch then
        var room := totallen * 4 % (sizeMax + 1);
        var m := if waiting.value > room then room else waiting.value;
        if m < MAX_READ then MAX_READ else m
      else waiting.value;
    if howmuch < 0 || howmuch > n then n else howmuch
  }

  // Of what waits a read takes all, up to the room it is told of; of more than MAX_READ bytes at least MAX_READ.
  lemma ReadTakesWhatWaits(waiting: nat, howmuch: int, totallen: nat, sizeMax: nat)
    requires 0 < waiting && howmuch != 0
    ensures var n := ReadLimit(Some(waiting), howmuch, totallen, sizeMax);
      && n <= waiting && (howmuch > 0 ==> n <= howmuch)
      && (waiting <= MAX_READ && howmuch < 0 ==> n == waiting)
      && (waiting <= MAX_READ && howmuch > 0 ==> n == if howmuch < waiting then howmuch else waiting)
      && (waiting > MAX_READ && (howmuch < 0 || howmuch >= MAX_READ) ==> MAX_READ <= n)
  {
  }

  // Without knowing what waits it asks for MAX_READ, or for the room it is told of.
  lemma ReadWithoutKnowing(howmuch: int, totallen: nat, sizeMax: nat)
    ensures ReadLimit(None, howmuch, totallen, sizeMax) == if 0 <= howmuch < MAX_READ then howmuch else MAX_READ
  {
  }

  // struct evbuffer. `buffer` is the distance of the pointer of that name from orig_buffer; a null orig_buffer is
  // an array without elements.
  class Buffer {
    const sizeMax: nat
    var orig: array<Byte>
    var buffer: nat
    var misalign: nat
    var totallen: nat
    var off: nat
    var hasCb: bool
    var reports: seq<Report>
    ghost var since: nat

    ghost predicate Valid()
      reads this
    {
      && 65535 <= sizeMax
      && totallen == orig.Length <= sizeMax
      && buffer == misalign
      && misalign + off <= totallen
      && (hasCb ==> Chained(since, reports, off))
    }

    ghost function Contents(): (s: seq<Byte>)
      reads this, orig
      requires Valid()
      ensures |s| == off
    {
      orig[buffer..buffer + off]
    }

    // evbuffer_new
    constructor (sizeMax: nat)
      requires 65535 <= sizeMax
      ensures Valid() && Contents() == [] && !hasCb && reports == [] && fresh(orig) && this.sizeMax == sizeMax
    {
      this.sizeMax := sizeMax;
      orig, buffer, misalign, totallen, off, hasCb, reports, since := new Byte[0], 0, 0, 0, 0, false, [], 0;
    }

    // evbuffer_setcb
    method SetCb(on: bool)
      requires Valid()
      modifies this`hasCb, this`reports, this`since
      ensures Valid() && hasCb == on && reports == [] && since == off
    {
      hasCb, reports, since := on, [], off;
    }

    // What the calls of the callback are after a change of the length.
    ghost predicate Told(hadCb: bool, before: nat, old': seq<Report>)
      reads this
    {
      hasCb == hadCb && reports == old' + if hadCb && off != before then [Report(before, off)] else []
    }

    method Tell(before: nat)
      requires hasCb ==> Chained(since, reports, before)
      modifies this`reports
      ensures hasCb ==> Chained(since, reports, off)
      ensures reports == old(reports) + if hasCb then [Report(before, off)] else []
    {
      if hasCb {
        ChainGrows(since, reports, before, off);
        reports := reports + [Report(before, off)];
      }
    }

    // evbuffer_align
    method Align()
      requires Valid()
      modifies this`buffer, this`misalign, orig
      ensures Valid() && Contents() == old(Contents()) && misalign == 0
    {
      forall k | 0 <= k < off {
        orig[k] := orig[buffer + k];
      }
      buffer, misalign := 0, 0;
    }

    // The length evbuffer_expand allocates: doubled from the present one until the need is met, or just the need
    // when doubling could overflow. No step leaves the range of size_t.
    method NewLength(need: nat) returns (length: nat)
      requires Valid() && totallen < need <= sizeMax
      ensures need <= length <= sizeMax
      ensures length <= 2 * need || length == 256
    {
      length := totallen;
      if length < 256 {
        length := 256;
      }
      if need < sizeMax / 2 {
        while length < need
          invariant 0 < length && (length <= 2 * need || length == 256)
          invariant length <= sizeMax
        {
          length := 2 * length;
        }
      } else {
        length := need;
      }
    }

    // What makes evbuffer_expand fail: the sum is not a size_t, or more memory is needed and there is none.
    ghost predicate CannotExpand(datlen: nat, memory: bool)
      reads this
      requires Valid()
    {
      totallen - misalign - off < datlen && (datlen > sizeMax - off || (totallen - off < datlen && !memory))
    }

    // realloc
    method Reallocate(length: nat)
      requires Valid() && misalign == 0 && totallen < length <= sizeMax
      modifies this`orig, this`totallen
      ensures Valid() && Contents() == old(Contents()) && totallen == length && fresh(orig)
    {
      var newbuf := new Byte[length];
      forall k | 0 <= k < totallen {
        newbuf[k] := orig[k];
      }
      orig, totallen := newbuf, length;
    }

    // evbuffer_expand
    method Expand(datlen: nat, memory: bool) returns (r: int)
      requires Valid() && datlen <= sizeMax
      modifies this`orig, this`buffer, this`misalign, this`totallen, orig
      ensures Valid() && Contents() == old(Contents())
      ensures r == if old(CannotExpand(datlen, memory)) then -1 else 0
      ensures r == 0 ==> datlen <= totallen - (misalign + off)
      ensures totallen == old(totallen) || totallen <= 2 * (off + datlen) || totallen == 256
      ensures orig == old(orig) || fresh(orig)
    {
      var used := misalign + off;
      if totallen - used >= datlen {
        return 0;
      }
      if datlen > sizeMax - off {
        return -1;
      }
      if totallen - off >= datlen {
        Align();
      } else {
        var length := NewLength(off + datlen);
        if buffer != 0 {
          Align();
        }
        if !memory {
          return -1;
        }
        Reallocate(length);
      }
      return 0;
    }

    // evbuffer_add
    method Add(data: seq<Byte>, memory: bool) returns (r: int)
      requires Valid() && |data| <= sizeMax
      modifies this`orig, this`buffer, this`misalign, this`totallen, this`off, this`reports, orig
      ensures Valid()
      ensures r == if old(CannotExpand(|data|, memory)) then -1 else 0
      ensures memory && old(off) + |data| <= sizeMax ==> r == 0
      ensures Contents() == if r == 0 then old(Contents()) + data else old(Contents())
      ensures Told(old(hasCb), old(off), old(reports))
      ensures orig == old(orig) || fresh(orig)
    {
      var used, oldoff := misalign + off, off;
      if totallen - used < |data| {
        r := Expand(|data|, memory);
        if r == -1 {
          return;
        }
      }
      Store(data);
      if |data| != 0 {
        Tell(oldoff);
      }
      return 0;
    }

    // The memcpy of evbuffer_add, with the new length.
    method Store(data: seq<Byte>)
      requires Valid() && |data| <= totallen - (misalign + off)
      modifies this`off, orig
      ensures off == old(off) + |data| && misalign + off <= totallen
      ensures orig[buffer..buffer + off] == old(Contents()) + data
    {
      forall k | 0 <= k < |data| {
        orig[buffer + off + k] := data[k];
      }
      off := off + |data|;
    }

    // evbuffer_drain
    method Drain(len: nat)
      requires Valid()
      modifies this`buffer, this`misalign, this`off, this`reports
      ensures Valid()
      ensures Contents() == if len >= old(off) then [] else old(Contents())[len..]
      ensures Told(old(hasCb), old(off), old(reports))
    {
      var oldoff := off;
      if len >= off {
        off, buffer, misalign := 0, 0, 0;
      } else {
        buffer, misalign := buffer + len, misalign + len;
        off := off - len;
      }
      if off != oldoff {
        Tell(oldoff);
      }
    }

    // evbuffer_remove
    method Remove(data: array<Byte>, datlen: nat) returns (nread: nat)
      requires Valid() && datlen <= data.Length && data != orig
      modifies this`buffer, this`misalign, this`off, this`reports, data
      ensures Valid() && nread == if datlen < old(off) then datlen else old(off)
      ensures data[..] == old(Contents())[..nread] + old(data[..])[nread..]
      ensures Contents() == old(Contents())[nread..]
      ensures Told(old(hasCb), old(off), old(reports))
    {
      nread := datlen;
      if nread >= off {
        nread := off;
      }
      CopyOut(data, nread);
      Drain(nread);
    }

    // The memcpy of evbuffer_remove.
    method CopyOut(data: array<Byte>, n: nat)
      requires Valid() && n <= data.Length && n <= off && data != orig
      modifies data
      ensures data[..] == Contents()[..n] + old(data[..])[n..]
    {
      forall k | 0 <= k < n {
        data[k] := orig[buffer + k];
      }
    }

    // evbuffer_add_buffer, with this the buffer that is added to: by trading places when this is empty, else by
    // copying.
    method AddBuffer(inbuf: Buffer, memory: bool) returns (r: int)
      requires Valid() && inbuf.Valid() && inbuf != this && inbuf.orig != orig && inbuf.sizeMax == sizeMax
      modifies this, orig, inbuf, inbuf.orig
      ensures Valid() && inbuf.Valid() && inbuf.orig != orig
      ensures r == if old(off) != 0 && old(CannotExpand(inbuf.off, memory)) then -1 else 0
      ensures memory && old(off) + old(inbuf.off) <= sizeMax ==> r == 0
      ensures r == 0 ==> Contents() == old(Contents()) + old(inbuf.Contents()) && inbuf.Contents() == []
      ensures r != 0 ==> Contents() == old(Contents()) && inbuf.Contents() == old(inbuf.Contents())
      ensures Told(old(hasCb), old(off), old(reports)) && inbuf.Told(old(inbuf.hasCb), old(inbuf.off), old(inbuf.reports))
      ensures fresh({orig, inbuf.orig} - {old(orig), old(inbuf.orig)})
    {
      if off == 0 {
        Trade(inbuf);
        return 0;
      }
      r := Add(inbuf.orig[inbuf.buffer..inbuf.buffer + inbuf.off], memory);
      if r == 0 {
        inbuf.Drain(inbuf.off);
      }
    }

    // The short cut of evbuffer_add_buffer.
    method Trade(inbuf: Buffer)
      requires Valid() && inbuf.Valid() && inbuf != this && inbuf.orig != orig && inbuf.sizeMax == sizeMax && off == 0
      modifies this, inbuf
      ensures Valid() && inbuf.Valid() && orig == old(inbuf.orig) && inbuf.orig == old(orig)
      ensures Contents() == old(inbuf.Contents()) && inbuf.Contents() == []
      ensures Told(old(hasCb), 0, old(reports)) && inbuf.Told(old(inbuf.hasCb), old(inbuf.off), old(inbuf.reports))
    {
      var oldoff := inbuf.off;
      orig, inbuf.orig := inbuf.orig, orig;
      buffer, inbuf.buffer := inbuf.buffer, buffer;
      misalign, inbuf.misalign := inbuf.misalign, misalign;
      totallen, inbuf.totallen := inbuf.totallen, totallen;
      off, inbuf.off := inbuf.off, off;
      if inbuf.off != oldoff {
        inbuf.Tell(oldoff);
      }
      if oldoff != 0 {
        Tell(0);
      }
    }

    // evbuffer_read: `arrived` is what read gives, and None when it fails.
    method Read(waiting: Option<int>, howmuch: int, memory: bool, arrived: Option<seq<Byte>>) returns (r: int)
      requires Valid() && ReadLimit(waiting, howmuch, totallen, sizeMax) <= sizeMax
      requires arrived.Some? ==> |arrived.value| <= ReadLimit(waiting, howmuch, totallen, sizeMax)
      modifies this`orig, this`buffer, this`misalign, this`totallen, this`off, this`reports, orig
      ensures Valid() && Told(old(hasCb), old(off), old(reports))
      ensures r == -1 <==> arrived.None? || old(CannotExpand(ReadLimit(waiting, howmuch, totallen, sizeMax), memory))
      ensures r != -1 ==> r == |arrived.value| && Contents() == old(Contents()) + arrived.value
      ensures r == -1 ==> Contents() == old(Contents())
      ensures orig == old(orig) || fresh(orig)
    {
      hide Chained, ReadLimit, CannotExpand;
      var oldoff := off;
      r := Expand(ReadLimit(waiting, howmuch, totallen, sizeMax), memory);
      if r == -1 || arrived.None? {
        return -1;
      }
      Store(arrived.value);
      if off != oldoff {
        Tell(oldoff);
      }
      return |arrived.value|;
    }

    // evbuffer_write: `taken` is what write gives, and None when it fails.
    method Write(taken: Option<nat>) returns (r: int)
      requires Valid() && (taken.Some? ==> taken.value <= off)
      modifies this`buffer, this`misalign, this`off, this`reports
      ensures Valid() && Told(old(hasCb), old(off), old(reports))
      ensures r == if taken.None? then -1 else taken.value
      ensures Contents() == if r == -1 then old(Contents()) else old(Contents())[r..]
    {
      if taken.None? {
        return -1;
      }
      ghost var s := Contents();
      assert s[|s|..] == [] && s[0..] == s;
      if taken.value != 0 {
        Drain(taken.value);
      }
      return taken.value;
    }

    // ---------- Lines and patterns ----------

    // EVBUFFER_DATA(buffer)[i]
    function Data(i: nat): (b: Byte)
      requires Valid() && i < off
      reads this, orig
      ensures b == Contents()[i]
    {
      orig[buffer + i]
    }

    // memcmp
    method Matches(what: seq<Byte>, i: nat) returns (same: bool)
      requires Valid() && i + |what| <= off
      ensures same == MatchAt(Contents(), what, i)
    {
      ghost var s := Contents();
      var k := 0;
      while k < |what| && Data(i + k) == what[k]
        invariant 0 <= k <= |what|
        invariant forall j :: 0 <= j < k ==> s[i + j] == what[j]
      {
        k := k + 1;
      }
      assert k < |what| ==> s[i..i + |what|][k] != what[k];
      return k == |what|;
    }

    // memchr on the contents, from place i on.
    method Memchr(i: nat, b: Byte) returns (k: nat)
      requires Valid() && i <= off
      ensures k == Index(Contents(), i, b)
    {
      k := i;
      while k < off && orig[buffer + k] != b
        invariant i <= k <= off
        invariant Index(Contents(), i, b) == Index(Contents(), k, b)
      {
        k := k + 1;
      }
    }

    // The scan of the EVBUFFER_EOL_ANY style and of evbuffer_readline.
    method ScanEol(i: nat, eol: bool) returns (k: nat)
      requires Valid() && i <= off
      ensures k == EolIndex(Contents(), i, eol)
    {
      k := i;
      while k < off && IsEol(orig[buffer + k]) != eol
        invariant i <= k <= off
        invariant EolIndex(Contents(), i, eol) == EolIndex(Contents(), k, eol)
      {
        k := k + 1;
      }
    }

    // The loop of the EVBUFFER_EOL_CRLF_STRICT style.
    method ScanCrLf() returns (k: nat)
      requires Valid()
      ensures k == CrLfIndex(Contents(), 0)
    {
      hide Index, CrLfIndex, Chained, Contents;
      ghost var s := Contents();
      k := Memchr(0, CR);
      SkipToCr(s, 0);
      while k < off
        invariant k <= off && (k < off ==> s[k] == CR)
        invariant CrLfIndex(s, 0) == if k < off then CrLfIndex(s, k) else off
        decreases off - k
      {
        TryCr(s, k);
        if k + 1 < off && Data(k + 1) == LF {
          break;
        }
        if k + 1 >= off {
          k := off;
          break;
        }
        SkipToCr(s, k + 1);
        k := Memchr(k + 1, CR);
      }
    }

    // Where evbuffer_readln finds the end of the first line.
    method FindEol(style: EolStyle) returns (e: Option<Eol>)
      requires Valid()
      ensures e == Cut(Contents(), style)
    {
      match style
      case AnyEol =>
        var i := ScanEol(0, true);
        if i == off {
          return None;
        }
        var end := ScanEol(i + 1, false);
        return Some(Eol(i, end));
      case CrLf =>
        var i := Memchr(0, LF);
        if i == off {
          return None;
        }
        return Some(Eol(if i > 0 && orig[buffer + i - 1] == CR then i - 1 else i, i + 1));
      case CrLfStrict =>
        var i := ScanCrLf();
        if i == off {
          return None;
        }
        return Some(Eol(i, i + 2));
      case LfOnly =>
        var i := Memchr(0, LF);
        if i == off {
          return None;
        }
        return Some(Eol(i, i + 1));
    }

    // evbuffer_readln: the line before the first line end of the style, which is removed with it.
    method Readln(style: EolStyle, memory: bool) returns (line: Option<seq<Byte>>)
      requires Valid()
      modifies this`buffer, this`misalign, this`off, this`reports
      ensures Valid() && Told(old(hasCb), old(off), old(reports))
      ensures line.None? <==> Cut(old(Contents()), style).None? || !memory
      ensures line.None? ==> Contents() == old(Contents())
      ensures line.Some? ==> exists e ::
        && LineEnd(old(Contents()), style, e)
        && line.value == old(Contents())[..e.start] && Contents() == old(Contents())[e.end..]
    {
      hide Cut, LineEnd;
      ghost var s := Contents();
      var e := FindEol(style);
      if e.None? || !memory {
        return None;
      }
      CutIsTheLineEnd(s, style, e.value);
      EolInside(s, style, e.value);
      var front := Front(e.value.start);
      Drain(e.value.end);
      assert s[|s|..] == [];
      line := Some(front);
    }

    // evbuffer_readline: a line ends at the first CR or LF, and takes the other of the two with it if that is next.
    method Readline(memory: bool) returns (line: Option<seq<Byte>>)
      requires Valid()
      modifies this`buffer, this`misalign, this`off, this`reports
      ensures Valid() && Told(old(hasCb), old(off), old(reports))
      ensures line.None? <==> !memory || forall j :: 0 <= j < old(off) ==> !IsEol(old(Contents())[j])
      ensures line.None? ==> Contents() == old(Contents())
      ensures line.Some? ==> LineRead(old(Contents()), line.value, Contents())
    {
      hide EolIndex, Chained, Contents, LineRead;
      ghost var s := Contents();
      var i := ScanEol(0, true);
      if i == off || !memory {
        return None;
      }
      var front := Front(i);
      var n := EolLength(i);
      LineIsRead(s, i, n);
      Drain(i + n);
      line := Some(front);
    }

    // The memcpy of a line.
    method Front(n: nat) returns (line: seq<Byte>)
      requires Valid() && n <= off
      ensures line == Contents()[..n]
    {
      line := orig[buffer..buffer + n];
    }

    // Whether evbuffer_readline drains one more character.
    method EolLength(i: nat) returns (n: nat)
      requires Valid() && i < off
      ensures n == LineEndLength(Contents(), i)
    {
      n := 1;
      if i < off - 1 {
        var fch, sch := orig[buffer + i], orig[buffer + i + 1];
        if (sch == CR || sch == LF) && sch != fch {
          n := 2;
        }
      }
    }

    // evbuffer_find: the least offset at which a pattern matches, if it matches anywhere.
    method Find(what: seq<Byte>) returns (at: Option<nat>)
      requires Valid() && what != []
      ensures at.Some? ==> MatchAt(Contents(), what, at.value) && forall j :: 0 <= j < at.value ==> !MatchAt(Contents(), what, j)
      ensures at.None? ==> forall j :: !MatchAt(Contents(), what, j)
    {
      hide MatchAt, Index, Chained, Contents;
      ghost var s := Contents();
      var search := 0;
      while search < off
        invariant 0 <= search <= off
        invariant forall j :: 0 <= j < search ==> !MatchAt(s, what, j)
        decreases off - search
      {
        var p := Memchr(search, what[0]);
        NoMatchBefore(s, what, search, p);
        if p == off || p + |what| > off {
          NoRoomForMatch(s, what, p);
          return None;
        }
        var same := Matches(what, p);
        if same {
          return Some(p);
        }
        search := p + 1;
      }
      NoRoomForMatch(s, what, off);
      return None;
    }
  }

  lemma SkipToCr(s: seq<Byte>, i: nat)
    requires i <= |s|
    ensures var cp := Index(s, i, CR); CrLfIndex(s, i) == if cp < |s| then CrLfIndex(s, cp) else |s|
  {
    var cp := Index(s, i, CR);
    if cp < |s| {
      assert Index(s, cp, CR) == cp;
    }
  }

  lemma TryCr(s: seq<Byte>, k: nat)
    requires k < |s| && s[k] == CR
    ensures CrLfIndex(s, k) == if CrLfAt(s, k) then k else CrLfIndex(s, k + 1)
    ensures k + 1 == |s| ==> CrLfIndex(s, k + 1) == |s|
  {
  }

  lemma LineIsRead(s: seq<Byte>, i: nat, n: nat)
    requires i == EolIndex(s, 0, true) < |s| && n == LineEndLength(s, i)
    ensures i + n <= |s| && LineRead(s, s[..i], if i + n >= |s| then [] else s[i + n..])
  {
  }

  lemma EolInside(s: seq<Byte>, style: EolStyle, e: Eol)
    requires LineEnd(s, style, e)
    ensures e.start < e.end <= |s|
  {
  }

  lemma NoRoomForMatch(s: seq<Byte>, what: seq<Byte>, p: nat)
    requires what != [] && p + |what| > |s|
    ensures forall j :: p <= j ==> !MatchAt(s, what, j)
  {
  }

  lemma NoMatchBefore(s: seq<Byte>, what: seq<Byte>, i: nat, p: nat)
    requires what != [] && i <= |s| && p == Index(s, i, what[0])
    ensures forall j :: i <= j < p ==> !MatchAt(s, what, j)
  {
    forall j | i <= j < p
      ensures !MatchAt(s, what, j)
    {
      if j + |what| <= |s| {
        assert s[j..j + |what|][0] == s[j];
      }
    }
  }
}
