// Chunked transfer coding (section 4.1 of RFC 7230) as http.c writes it and reads it piece by piece.
module Chunked {
  import opened Bytes
  import opened Lines
  import opened Buffers

  const CRLF: seq<Byte> := [CR, LF]

  // ---------- Sizes ----------

  function HexChar(d: nat): Byte
    requires d < 16
  {
    if d < 10 then (48 + d) as Byte else (87 + d) as Byte
  }

  // What %x prints.
  function Hex(n: nat): (s: seq<Byte>)
    ensures s != []
  {
    if n < 16 then [HexChar(n)] else Hex(n / 16) + [HexChar(n % 16)]
  }

  function HexDigit(b: Byte): (d: Option<nat>)
    ensures d.Some? ==> d.value < 16
  {
    if 48 <= b <= 57 then Some(b as nat - 48)
    else if 97 <= b <= 102 then Some(b as nat - 87)
    else if 65 <= b <= 70 then Some(b as nat - 55)
    else None
  }

  predicate IsSpace(b: Byte) {
    b == 32 || 9 <= b <= 13
  }

  function SkipSpace(s: seq<Byte>, i: nat): (k: nat)
    requires i <= |s|
    ensures i <= k <= |s|
    decreases |s| - i
  {
    if i < |s| && IsSpace(s[i]) then SkipSpace(s, i + 1) else i
  }

  function SkipDigits(s: seq<Byte>, i: nat): (k: nat)
    requires i <= |s|
    ensures i <= k <= |s|
    ensures forall j :: i <= j < k ==> HexDigit(s[j]).Some?
    decreases |s| - i
  {
    if i < |s| && HexDigit(s[i]).Some? then SkipDigits(s, i + 1) else i
  }

  function Number(s: seq<Byte>, i: nat, e: nat): nat
    requires i <= e <= |s| && forall j :: i <= j < e ==> HexDigit(s[j]).Some?
    decreases e
  {
    if i == e then 0 else 16 * Number(s, i, e - 1) + HexDigit(s[e - 1]).value
  }

  const LLONG_MAX: int := 0x7fff_ffff_ffff_ffff

  // strtoll in base 16: the value, which stays within 64 bits, and where the digits end.
  function StrToLL(s: seq<Byte>): (r: (int, nat))
    ensures r.1 <= |s|
  {
    var i := SkipSpace(s, 0);
    var negative := i < |s| && s[i] == 45;
    var i := if i < |s| && (s[i] == 45 || s[i] == 43) then i + 1 else i;
    var i :=
      if i + 2 < |s| && s[i] == 48 && (s[i + 1] == 120 || s[i + 1] == 88) && HexDigit(s[i + 2]).Some? then i + 2 else i;
    var e := SkipDigits(s, i);
    if e == i then (0, 0)
    else if negative then (-Min(Number(s, i, e), LLONG_MAX + 1), e)
    else (Min(Number(s, i, e), LLONG_MAX), e)
  }

  function Min(a: int, b: int): int {
    if a < b then a else b
  }

  // What a line of a chunked body says: nothing, no size, or a size. Only the bytes before a NUL count.
  datatype Size = Blank | Unreadable | Of(n: nat)

  function SizeOf(line: seq<Byte>): Size {
    var p := line[..Index(line, 0, 0)];
    if p == [] then Blank
    else
      var (n, end) := StrToLL(p);
      if (end < |p| && p[end] != 32) || n < 0 then Unreadable else Of(n)
  }

  lemma {:induction false} HexIsDigits(n: nat)
    ensures forall j :: 0 <= j < |Hex(n)| ==> HexDigit(Hex(n)[j]).Some?
    ensures Number(Hex(n), 0, |Hex(n)|) == n
  {
    var s := Hex(n);
    if n < 16 {
      assert Number(s, 0, 1) == 16 * Number(s, 0, 0) + HexDigit(s[0]).value;
    } else {
      HexIsDigits(n / 16);
      NumberOfPrefix(Hex(n / 16), s[|s| - 1], |s| - 1);
    }
  }

  lemma {:induction false} NumberOfPrefix(s: seq<Byte>, b: Byte, e: nat)
    requires e <= |s| && forall j :: 0 <= j < |s| ==> HexDigit(s[j]).Some?
    ensures forall j :: 0 <= j < e ==> HexDigit((s + [b])[j]).Some?
    ensures Number(s + [b], 0, e) == Number(s, 0, e)
  {
    assert forall j :: 0 <= j < e ==> (s + [b])[j] == s[j];
    if e > 0 {
      NumberOfPrefix(s, b, e - 1);
    }
  }

  // ---------- What a size line says ----------

  const LOWER: seq<Byte> := [48, 49, 50, 51, 52, 53, 54, 55, 56, 57, 97, 98, 99, 100, 101, 102]
  const UPPER: seq<Byte> := [48, 49, 50, 51, 52, 53, 54, 55, 56, 57, 65, 66, 67, 68, 69, 70]

  // A hexadecimal digit in either case.
  predicate Digit(b: Byte, d: nat) {
    d < 16 && (b == LOWER[d] || b == UPPER[d])
  }

  // The digits of n, in any mix of cases and with any number of zeros before them.
  predicate Spells(s: seq<Byte>, n: nat) {
    s != [] && Digit(s[|s| - 1], n % 16) && if |s| == 1 then n < 16 else Spells(s[..|s| - 1], n / 16)
  }

  // The digits of n alone, or a space after them and anything after that.
  ghost predicate SizeLine(line: seq<Byte>, n: nat) {
    exists k :: 0 <= k <= |line| && Spells(line[..k], n) && (k < |line| ==> line[k] == 32)
  }

  lemma DigitIsRead(b: Byte, d: nat)
    ensures Digit(b, d) <==> HexDigit(b) == Some(d)
  {
    if HexDigit(b) == Some(d) {
      assert b == LOWER[d] || b == UPPER[d];
    }
  }

  lemma NotADigit(b: Byte)
    requires HexDigit(b).Some?
    ensures b != 0 && b != 32 && !IsSpace(b) && b != 45 && b != 43 && b != 120 && b != 88 && !IsEol(b)
  {
  }

  // The digits that spell a number are digits, with that value, and digits spell the number that is their value.
  lemma {:induction false} SpelledDigits(s: seq<Byte>, n: nat)
    ensures Spells(s, n) <==>
      s != [] && (forall j :: 0 <= j < |s| ==> HexDigit(s[j]).Some?) && Number(s, 0, |s|) == n
    decreases |s|
  {
    hide HexDigit, Digit;
    if s != [] {
      var t, b := s[..|s| - 1], s[|s| - 1];
      DigitIsRead(b, n % 16);
      assert s == t + [b];
      if |s| == 1 {
        assert Number(s, 0, 0) == 0;
      } else {
        SpelledDigits(t, n / 16);
        if forall j :: 0 <= j < |t| ==> HexDigit(t[j]).Some? {
          NumberOfPrefix(t, b, |t|);
        }
        assert (forall j :: 0 <= j < |s| ==> HexDigit(s[j]).Some?) ==> forall j :: 0 <= j < |t| ==> t[j] == s[j];
      }
    }
  }

  lemma {:induction false} SkipsDigits(s: seq<Byte>, i: nat, k: nat)
    requires i <= k <= |s| && (forall j :: i <= j < k ==> HexDigit(s[j]).Some?) && (k < |s| ==> HexDigit(s[k]).None?)
    ensures SkipDigits(s, i) == k
    decreases k - i
  {
    if i < k {
      SkipsDigits(s, i + 1, k);
    }
  }

  lemma {:induction false} NumberOfFront(s: seq<Byte>, k: nat, e: nat)
    requires e <= k <= |s| && forall j :: 0 <= j < k ==> HexDigit(s[j]).Some?
    ensures (forall j :: 0 <= j < e ==> HexDigit(s[..k][j]).Some?) && Number(s[..k], 0, e) == Number(s, 0, e)
  {
    assert forall j :: 0 <= j < e ==> s[..k][j] == s[j];
    if e > 0 {
      NumberOfFront(s, k, e - 1);
    }
  }

  // strtoll on digits, and on digits before a space.
  lemma ReadsSpelling(p: seq<Byte>, k: nat, n: nat)
    requires k <= |p| && Spells(p[..k], n) && (k < |p| ==> p[k] == 32)
    ensures StrToLL(p) == (Min(n, LLONG_MAX), k)
  {
    hide Number, Spells, HexDigit;
    SpelledDigits(p[..k], n);
    forall j | 0 <= j < k
      ensures HexDigit(p[j]).Some?
    {
      assert p[..k][j] == p[j];
    }
    NotADigit(p[0]);
    if k > 1 {
      NotADigit(p[1]);
    }
    SpaceIsNoDigit();
    SkipsDigits(p, 0, k);
    NumberOfFront(p, k, k);
  }

  lemma SpaceIsNoDigit()
    ensures HexDigit(32).None?
  {
  }

  // Every spelling of a size is read as that size, or as LLONG_MAX if that is less, whatever follows a space.
  lemma SizeLineIsRead(line: seq<Byte>, n: nat)
    requires SizeLine(line, n)
    ensures SizeOf(line) == Of(Min(n, LLONG_MAX))
  {
    hide Spells, StrToLL, Index, HexDigit;
    var k :| 0 <= k <= |line| && Spells(line[..k], n) && (k < |line| ==> line[k] == 32);
    SpelledDigits(line[..k], n);
    var e := Index(line, 0, 0);
    forall j | 0 <= j < k
      ensures line[j] != 0
    {
      assert line[..k][j] == line[j];
      NotADigit(line[j]);
    }
    IndexAfter(line, k);
    var p := line[..e];
    assert p[..k] == line[..k];
    ReadsSpelling(p, k, n);
  }

  lemma IndexAfter(line: seq<Byte>, k: nat)
    requires k <= |line| && (forall j :: 0 <= j < k ==> line[j] != 0) && (k < |line| ==> line[k] != 0)
    ensures k <= Index(line, 0, 0) <= |line| && (k < |line| ==> k < Index(line, 0, 0))
  {
  }

  // Digits that are followed by anything but a space are no size.
  lemma JunkIsRefused(line: seq<Byte>, k: nat, n: nat)
    requires k < |line| && Spells(line[..k], n) && 0 !in line
    requires line[k] != 32 && HexDigit(line[k]).None? && line[k] != 120 && line[k] != 88
    ensures SizeOf(line) == Unreadable
  {
    hide Number, Spells, HexDigit;
    NoNulAtAll(line);
    SpelledDigits(line[..k], n);
    forall j | 0 <= j < k
      ensures HexDigit(line[j]).Some?
    {
      assert line[..k][j] == line[j];
    }
    NotADigit(line[0]);
    if k > 1 {
      NotADigit(line[1]);
    }
    SkipsDigits(line, 0, k);
    assert line[..|line|] == line;
  }

  lemma NoNulAtAll(line: seq<Byte>)
    requires 0 !in line
    ensures Index(line, 0, 0) == |line|
  {
  }

  // A number below zero is no size.
  lemma NegativeIsRefused(digits: seq<Byte>, n: nat)
    requires Spells(digits, n) && 0 < n
    ensures SizeOf([45] + digits) == Unreadable
  {
    hide Number, Spells, HexDigit;
    var line := [45] + digits;
    SpelledDigits(digits, n);
    forall j | 0 < j < |line|
      ensures HexDigit(line[j]).Some? && line[j] != 0
    {
      assert line[j] == digits[j - 1];
      NotADigit(line[j]);
    }
    if 2 < |line| {
      NotADigit(line[2]);
    }
    NotADigit(line[1]);
    NoNulAtAll(line);
    SkipsDigits(line, 1, |line|);
    NumberBehind(45, digits, |digits|);
    assert line[..|line|] == line;
  }

  lemma {:induction false} NumberBehind(b: Byte, s: seq<Byte>, e: nat)
    requires e <= |s| && forall j :: 0 <= j < e ==> HexDigit(s[j]).Some?
    ensures (forall j :: 1 <= j < e + 1 ==> HexDigit(([b] + s)[j]).Some?) && Number([b] + s, 1, e + 1) == Number(s, 0, e)
  {
    assert forall j :: 1 <= j < e + 1 ==> ([b] + s)[j] == s[j - 1];
    if e > 0 {
      NumberBehind(b, s, e - 1);
    }
  }

  // Every line of digits alone is a spelling.
  lemma {:induction false} DigitsSpell(s: seq<Byte>) returns (n: nat)
    requires s != [] && forall j :: 0 <= j < |s| ==> s[j] in LOWER || s[j] in UPPER
    ensures Spells(s, n) && SizeLine(s, n)
  {
    forall j | 0 <= j < |s|
      ensures HexDigit(s[j]).Some?
    {
      InTables(s[j]);
    }
    n := Number(s, 0, |s|);
    SpelledDigits(s, n);
    assert s[..|s|] == s;
  }

  lemma InTables(b: Byte)
    requires b in LOWER || b in UPPER
    ensures HexDigit(b).Some?
  {
    if b in LOWER {
      var d :| 0 <= d < |LOWER| && LOWER[d] == b;
      DigitIsRead(b, d);
    } else {
      var d :| 0 <= d < |UPPER| && UPPER[d] == b;
      DigitIsRead(b, d);
    }
  }

  // What %x prints is one.
  lemma {:induction false} HexSpells(n: nat)
    ensures Spells(Hex(n), n) && SizeLine(Hex(n), n) && forall j :: 0 <= j < |Hex(n)| ==> !IsEol(Hex(n)[j])
  {
    hide Hex, Spells, HexDigit;
    var s := Hex(n);
    HexIsDigits(n);
    SpelledDigits(s, n);
    assert s[..|s|] == s;
    forall j | 0 <= j < |s|
      ensures !IsEol(s[j])
    {
      NotADigit(s[j]);
    }
  }

  // A printed size is read back.
  lemma SizeReadsBack(n: nat)
    requires n <= LLONG_MAX
    ensures SizeOf(Hex(n)) == Of(n)
  {
    hide Hex;
    HexSpells(n);
    SizeLineIsRead(Hex(n), n);
  }

  // ---------- The encoder ----------

  function Chunk(c: seq<Byte>): seq<Byte> {
    Hex(|c|) + CRLF + c + CRLF
  }

  function LastChunk(): seq<Byte> {
    Hex(0) + CRLF + CRLF
  }

  function Encode(cs: seq<seq<Byte>>): seq<Byte> {
    if cs == [] then LastChunk() else Chunk(cs[0]) + Encode(cs[1..])
  }

  function Concat(cs: seq<seq<Byte>>): seq<Byte> {
    if cs == [] then [] else cs[0] + Concat(cs[1..])
  }

  // A body as others may send it: its chunks with their size lines, and the size line that ends it.
  datatype Message = Message(chunks: seq<seq<Byte>>, sizes: seq<seq<Byte>>) {
    function Size(k: nat): seq<Byte> {
      if k < |sizes| then sizes[k] else []
    }
  }

  // The message from chunk k on.
  function Coded(cs: Message, k: nat): seq<Byte>
    decreases |cs.chunks| - k
  {
    if k >= |cs.chunks| then cs.Size(k) + CRLF + CRLF
    else cs.Size(k) + CRLF + cs.chunks[k] + CRLF + Coded(cs, k + 1)
  }

  // The message that the encoder makes of some chunks.
  function Printed(cs: seq<seq<Byte>>): Message {
    Message(cs, seq(|cs| + 1, k requires 0 <= k <= |cs| => if k < |cs| then Hex(|cs[k]|) else Hex(0)))
  }

  lemma {:induction false} PrintedIsEncoded(cs: seq<seq<Byte>>, k: nat)
    requires k <= |cs|
    ensures Coded(Printed(cs), k) == Encode(cs[k..])
    decreases |cs| - k
  {
    hide Hex;
    if k < |cs| {
      assert cs[k..][1..] == cs[k + 1..] && cs[k..][0] == cs[k];
      PrintedIsEncoded(cs, k + 1);
    }
  }

  // ---------- The decoder ----------

  datatype Status = MoreExpected | AllRead | Corrupted

  // ntoread is negative while a size line is expected.
  datatype Reader = Reader(ntoread: int, buf: seq<Byte>, body: seq<Byte>, status: Status)

  function AfterLine(buf: seq<Byte>, i: nat): (rest: seq<Byte>)
    requires i < |buf|
    ensures |rest| < |buf|
  {
    buf[i + LineEndLength(buf, i)..]
  }

  // There is a line, or a whole chunk, to take.
  predicate CanStep(r: Reader) {
    r.status == MoreExpected && r.buf != [] &&
    if r.ntoread < 0 then EolIndex(r.buf, 0, true) < |r.buf| else r.ntoread <= |r.buf|
  }

  // One turn of the loop of evhttp_handle_chunked_read.
  function Step(r: Reader): (r': Reader)
    requires CanStep(r)
    ensures |r'.buf| < |r.buf| || (|r'.buf| == |r.buf| && r.ntoread == 0 && r'.ntoread < 0)
  {
    if r.ntoread < 0 then
      var i := EolIndex(r.buf, 0, true);
      var rest := AfterLine(r.buf, i);
      match SizeOf(r.buf[..i])
      case Blank => r.(buf := rest)
      case Unreadable => r.(buf := rest, status := Corrupted)
      case Of(n) => r.(ntoread := n, buf := rest, status := if n == 0 then AllRead else MoreExpected)
    else Reader(-1, r.buf[r.ntoread..], r.body + r.buf[..r.ntoread], MoreExpected)
  }

  // The whole loop.
  function Run(r: Reader): Reader
    decreases |r.buf|, if r.ntoread < 0 then 0 else 1
  {
    if CanStep(r) then Run(Step(r)) else r
  }

  // What the pieces of a body come to, one call after another until there is nothing more to expect.
  function Feed(r: Reader, fs: seq<seq<Byte>>): Reader
    decreases |fs|
  {
    if fs == [] || r.status != MoreExpected then r
    else Feed(Run(r.(buf := r.buf + fs[0])), fs[1..])
  }

  const Fresh: Reader := Reader(-1, [], [], MoreExpected)

  // ---------- What is still to come ----------

  predicate Eols(j: seq<Byte>) {
    forall k :: 0 <= k < |j| ==> IsEol(j[k])
  }

  predicate AllLf(c: seq<Byte>) {
    forall k :: 0 <= k < |c| ==> c[k] == LF
  }

  // Chunks of a length that an int holds, each after a line that says so; an empty one would be the last.
  ghost predicate Chunks(cs: Message) {
    && (forall k :: 0 <= k < |cs.chunks| ==> 0 < |cs.chunks[k]| < 0x8000_0000)
    && forall k: nat :: k <= |cs.chunks| ==> SizeLine(cs.Size(k), Length(cs, k)) && NoEol(cs.Size(k))
  }

  function Length(cs: Message, k: nat): nat {
    if k < |cs.chunks| then |cs.chunks[k]| else 0
  }

  predicate NoEol(s: seq<Byte>) {
    forall i :: 0 <= i < |s| ==> !IsEol(s[i])
  }

  lemma PrintedChunks(cs: seq<seq<Byte>>)
    requires forall k :: 0 <= k < |cs| ==> 0 < |cs[k]| < 0x8000_0000
    ensures Chunks(Printed(cs))
  {
    hide Hex, SizeLine;
    var m := Printed(cs);
    forall k: nat | k <= |cs|
      ensures SizeLine(m.Size(k), Length(m, k)) && NoEol(m.Size(k))
    {
      HexSpells(Length(m, k));
    }
  }

  lemma SizeIsRead(cs: Message, k: nat)
    requires Chunks(cs) && k <= |cs.chunks|
    ensures SizeOf(cs.Size(k)) == Of(Length(cs, k)) && cs.Size(k) != [] && NoEol(cs.Size(k))
  {
    hide SizeOf, Spells;
    SizeLineIsRead(cs.Size(k), Length(cs, k));
    SomeDigit(cs.Size(k), Length(cs, k));
  }

  lemma SomeDigit(line: seq<Byte>, n: nat)
    requires SizeLine(line, n)
    ensures line != []
  {
  }

  // Before a size line: line ends j that are left over, then the chunks from k on.
  ghost predicate Between(r: Reader, rest: seq<Byte>, cs: Message, k: nat, j: seq<Byte>) {
    && k <= |cs.chunks| && Eols(j) && |j| <= 3 && r.status == MoreExpected && r.ntoread < 0
    && r.buf + rest == j + Coded(cs, k)
    && r.body == Concat(cs.chunks[..k])
  }

  // After the size line of chunk k.
  ghost predicate Inside(r: Reader, rest: seq<Byte>, cs: Message, k: nat, j: seq<Byte>) {
    && k < |cs.chunks| && Eols(j) && |j| <= 3 && (|j| == 3 ==> AllLf(cs.chunks[k]))
    && r.status == MoreExpected && r.ntoread == |cs.chunks[k]|
    && r.buf + rest == cs.chunks[k] + (j + Coded(cs, k + 1))
    && r.body == Concat(cs.chunks[..k])
  }

  ghost predicate OnTrack(r: Reader, rest: seq<Byte>, cs: Message) {
    exists k, j :: Between(r, rest, cs, k, j) || Inside(r, rest, cs, k, j)
  }

  // What comes after a cut between the CR and the LF of the size line of chunk k.
  function AfterCr(cs: Message, k: nat): seq<Byte>
    requires k < |cs.chunks|
  {
    [LF] + cs.chunks[k] + (CRLF + Coded(cs, k + 1))
  }

  // The cut before rest separates the CR and the LF of the size line of a chunk that is not all LF.
  ghost predicate Tears(rest: seq<Byte>, cs: Message, k: nat) {
    k < |cs.chunks| && !AllLf(cs.chunks[k]) && rest == AfterCr(cs, k)
  }

  // No cut between pieces does.
  ghost predicate SafeCuts(fs: seq<seq<Byte>>, cs: Message) {
    fs == [] || (SafeCuts(fs[1..], cs) && forall k :: !Tears(Concat(fs[1..]), cs, k))
  }

  // The reader has taken the LF for the first byte of chunk k.
  ghost predicate Torn(r: Reader, rest: seq<Byte>, cs: Message, k: nat) {
    && Tears(rest, cs, k) && r.status == MoreExpected && r.ntoread == |cs.chunks[k]| && r.buf == [] && r.body == Concat(cs.chunks[..k])
  }

  ghost predicate Stuck(r: Reader) {
    !CanStep(r) && r.status == MoreExpected
  }

  // All is read, and the body is what the chunks are together.
  predicate Complete(r: Reader, cs: Message) {
    r.status == AllRead && r.body == Concat(cs.chunks)
  }

  ghost predicate Finished(r: Reader, rest: seq<Byte>, cs: Message) {
    Complete(r, cs) && |rest| <= 3
  }

  // Where a run ends up: at the end, waiting in good order, or torn.
  ghost predicate Settled(r: Reader, rest: seq<Byte>, cs: Message) {
    Finished(r, rest, cs) || (Stuck(r) && OnTrack(r, rest, cs)) || exists k :: Torn(r, rest, cs, k)
  }

  // An encoding begins with a size line, CR and LF.
  function AfterSize(cs: Message, k: nat): seq<Byte> {
    if k >= |cs.chunks| then CRLF else cs.chunks[k] + (CRLF + Coded(cs, k + 1))
  }

  lemma CodedStarts(cs: Message, k: nat)
    ensures Coded(cs, k) == cs.Size(k) + (CRLF + AfterSize(cs, k))
  {
    if k >= |cs.chunks| {
      Associate(cs.Size(k), CRLF, CRLF);
    } else {
      var h, c, t := cs.Size(k), cs.chunks[k], Coded(cs, k + 1);
      Associate(h + CRLF + c, CRLF, t);
      Associate(h + CRLF, c, CRLF + t);
      Associate(h, CRLF, c + (CRLF + t));
    }
  }

  lemma Parts(buf: seq<Byte>, rest: seq<Byte>, s: seq<Byte>)
    requires buf + rest == s
    ensures |buf| <= |s| && buf == s[..|buf|] && rest == s[|buf|..]
  {
  }

  // What is cut off the front of one form of a sequence is cut off the front of the other.
  lemma Drop(buf: seq<Byte>, rest: seq<Byte>, a: seq<Byte>, b: seq<Byte>)
    requires buf + rest == a + b && |a| <= |buf|
    ensures buf[..|a|] == a && buf[|a|..] + rest == b
  {
    var s := a + b;
    assert buf[..|a|] == s[..|a|] == a;
    assert buf[|a|..] + rest == s[|a|..] == b;
  }

  // The first line end in a part of h CR LF t is right after h, if it is there at all.
  lemma FirstEol(buf: seq<Byte>, rest: seq<Byte>, h: seq<Byte>, t: seq<Byte>)
    requires buf + rest == h + (CRLF + t) && forall i :: 0 <= i < |h| ==> !IsEol(h[i])
    ensures EolIndex(buf, 0, true) == if |buf| <= |h| then |buf| else |h|
    ensures |buf| > |h| ==> buf[..|h|] == h
  {
    var s := h + (CRLF + t);
    Parts(buf, rest, s);
    assert s[|h|] == CR;
    forall i | 0 <= i < |buf| && i < |h|
      ensures !IsEol(buf[i])
    {
      assert buf[i] == s[i] == h[i];
    }
    EolIndexIs(buf, 0, true, if |buf| <= |h| then |buf| else |h|);
    assert |buf| > |h| ==> buf[..|h|] == s[..|h|];
  }

  // Whether both bytes of the line end are there tells whether the LF is left for later.
  lemma AfterFirstEol(buf: seq<Byte>, rest: seq<Byte>, h: seq<Byte>, t: seq<Byte>)
    requires buf + rest == h + (CRLF + t) && |buf| > |h|
    ensures |buf| > |h| + 1 ==> AfterLine(buf, |h|) + rest == t
    ensures |buf| == |h| + 1 ==> AfterLine(buf, |h|) == [] && rest == [LF] + t
  {
    if |buf| > |h| + 1 {
      assert h + (CRLF + t) == (h + CRLF) + t;
      Drop(buf, rest, h + CRLF, t);
      assert buf[|h|] == buf[..|h + CRLF|][|h|] && buf[|h| + 1] == buf[..|h + CRLF|][|h| + 1];
    } else {
      assert h + (CRLF + t) == (h + [CR]) + ([LF] + t);
      Drop(buf, rest, h + [CR], [LF] + t);
      assert buf[|buf|..] + rest == rest;
    }
  }

  lemma LeftOverEnds(buf: seq<Byte>, rest: seq<Byte>, cs: Message, k: nat, j: seq<Byte>)
    requires Chunks(cs) && k <= |cs.chunks| && buf + rest == j + Coded(cs, k) && Eols(j) && j != [] && buf != []
    ensures EolIndex(buf, 0, true) == 0 && LineEndLength(buf, 0) <= |j|
  {
    hide Coded, Chunks;
    var s, h := j + Coded(cs, k), cs.Size(k);
    Parts(buf, rest, s);
    CodedStarts(cs, k);
    SizeIsRead(cs, k);
    assert s[0] == j[0] && s[1] == if |j| == 1 then h[0] else j[1];
    EolIndexIs(buf, 0, true, 0);
  }

  // A line end that is left over is taken for a blank line.
  lemma StepOverEol(r: Reader, rest: seq<Byte>, cs: Message, k: nat, j: seq<Byte>) returns (n: nat)
    requires Chunks(cs) && Between(r, rest, cs, k, j) && j != [] && r.buf != []
    ensures CanStep(r) && n <= |j| && Between(Step(r), rest, cs, k, j[n..])
  {
    hide Coded, Concat, EolIndex, LineEndLength;
    LeftOverEnds(r.buf, rest, cs, k, j);
    n := LineEndLength(r.buf, 0);
    assert r.buf[..0] == [];
    assert SizeOf([]) == Blank;
    assert j + Coded(cs, k) == j[..n] + (j[n..] + Coded(cs, k));
    LineEndInside(r.buf);
    Drop(r.buf, rest, j[..n], j[n..] + Coded(cs, k));
  }

  lemma LineEndInside(buf: seq<Byte>)
    requires buf != []
    ensures LineEndLength(buf, 0) <= |buf|
  {
  }

  // The size line of chunk k, or of the end, is taken once its CR is there. The LF is taken with it if it is
  // there too; if it is still to come, it will count as the first byte of the chunk.
  lemma StepOverSize(r: Reader, rest: seq<Byte>, cs: Message, k: nat)
    requires Chunks(cs) && Between(r, rest, cs, k, []) && CanStep(r)
    ensures k == |cs.chunks| ==> Finished(Step(r), rest, cs)
    ensures k < |cs.chunks| ==> Inside(Step(r), rest, cs, k, CRLF) || Torn(Step(r), rest, cs, k) || Inside(Step(r), rest, cs, k, [LF] + CRLF)
  {
    hide Coded, Concat, EolIndex, LineEndLength, SizeOf;
    var h, t := cs.Size(k), AfterSize(cs, k);
    CodedStarts(cs, k);
    assert [] + Coded(cs, k) == Coded(cs, k);
    FirstEol(r.buf, rest, h, t);
    AfterFirstEol(r.buf, rest, h, t);
    SizeIsRead(cs, k);
    if k == |cs.chunks| {
      assert cs.chunks[..k] == cs.chunks;
    } else {
      if AllLf(cs.chunks[k]) {
        LfMovesOver(cs.chunks[k], CRLF + Coded(cs, k + 1));
      }
      assert [LF] + (CRLF + Coded(cs, k + 1)) == [LF] + CRLF + Coded(cs, k + 1);
    }
  }

  lemma LfMovesOver(c: seq<Byte>, t: seq<Byte>)
    requires AllLf(c)
    ensures [LF] + (c + t) == c + ([LF] + t)
  {
    var s, u := [LF] + (c + t), c + ([LF] + t);
    forall i | 0 <= i < |s|
      ensures s[i] == u[i]
    {
    }
  }

  // A whole chunk is taken.
  lemma StepOverChunk(r: Reader, rest: seq<Byte>, cs: Message, k: nat, j: seq<Byte>)
    requires Chunks(cs) && Inside(r, rest, cs, k, j) && CanStep(r)
    ensures Between(Step(r), rest, cs, k + 1, j)
  {
    hide Coded, EolIndex, SizeOf, Concat;
    Drop(r.buf, rest, cs.chunks[k], j + Coded(cs, k + 1));
    ConcatNext(cs.chunks, k);
  }

  lemma {:induction false} ConcatNext(cs: seq<seq<Byte>>, k: nat)
    requires k < |cs|
    ensures Concat(cs[..k + 1]) == Concat(cs[..k]) + cs[k]
  {
    if k == 0 {
      assert cs[..1] == [cs[0]] && [cs[0]][1..] == [];
    } else {
      ConcatNext(cs[1..], k - 1);
      assert cs[..k + 1][1..] == cs[1..][..k] && cs[..k][1..] == cs[1..][..k - 1];
    }
  }

  lemma {:induction false} RunSettles(r: Reader, rest: seq<Byte>, cs: Message)
    requires Chunks(cs) && OnTrack(r, rest, cs)
    ensures Settled(Run(r), rest, cs)
    decreases |r.buf|, if r.ntoread < 0 then 0 else 1
  {
    hide Between, Inside, Torn, Finished, CanStep, Step;
    if CanStep(r) {
      StepSettles(r, rest, cs);
      if OnTrack(Step(r), rest, cs) {
        RunSettles(Step(r), rest, cs);
      } else {
        NoStepAfter(Step(r), rest, cs);
      }
    } else {
      StuckOnTrack(r, rest, cs);
    }
  }

  lemma StuckOnTrack(r: Reader, rest: seq<Byte>, cs: Message)
    requires OnTrack(r, rest, cs) && !CanStep(r)
    ensures Stuck(r)
  {
    hide CanStep;
  }

  lemma NoStepAfter(r: Reader, rest: seq<Byte>, cs: Message)
    requires Finished(r, rest, cs) || exists k :: Torn(r, rest, cs, k)
    ensures Run(r) == r
  {
  }

  lemma StepSettles(r: Reader, rest: seq<Byte>, cs: Message)
    requires Chunks(cs) && OnTrack(r, rest, cs) && CanStep(r)
    ensures OnTrack(Step(r), rest, cs) || Finished(Step(r), rest, cs) || exists k :: Torn(Step(r), rest, cs, k)
  {
    hide CanStep, Step, Torn, Finished;
    var k: nat, j :| Between(r, rest, cs, k, j) || Inside(r, rest, cs, k, j);
    if Inside(r, rest, cs, k, j) {
      StepOverChunk(r, rest, cs, k, j);
    } else if j == [] {
      StepOverSize(r, rest, cs, k);
    } else {
      HasBytes(r);
      var n := StepOverEol(r, rest, cs, k, j);
    }
  }

  lemma HasBytes(r: Reader)
    requires CanStep(r)
    ensures r.buf != []
  {
  }

  // With nothing left to come, a reader in good order is not stuck.
  lemma NotStuckAtEnd(r: Reader, cs: Message)
    requires Chunks(cs) && OnTrack(r, [], cs)
    ensures CanStep(r)
  {
    hide Coded, Concat, EolIndex, Hex;
    var k: nat, j :| Between(r, [], cs, k, j) || Inside(r, [], cs, k, j);
    assert r.buf + [] == r.buf;
    if Between(r, [], cs, k, j) {
      if j == [] {
        assert [] + Coded(cs, k) == Coded(cs, k);
        CodedStarts(cs, k);
            FirstEol(r.buf, [], cs.Size(k), AfterSize(cs, k));
      } else {
        LeftOverEnds(r.buf, [], cs, k, j);
      }
    }
  }

  // ---------- Torn readers ----------

  // Whatever else comes, the body only grows, and a torn reader puts a LF before what it takes for the chunk.
  lemma {:induction false} RunGrows(r: Reader)
    ensures |r.body| <= |Run(r).body| && Run(r).body[..|r.body|] == r.body
    decreases |r.buf|, if r.ntoread < 0 then 0 else 1
  {
    hide EolIndex, SizeOf, AfterLine;
    if CanStep(r) {
      RunGrows(Step(r));
      assert Step(r).body[..|r.body|] == r.body;
    }
  }

  lemma {:induction false} FeedGrows(r: Reader, fs: seq<seq<Byte>>)
    ensures |r.body| <= |Feed(r, fs).body| && Feed(r, fs).body[..|r.body|] == r.body
    decreases |fs|
  {
    hide Run;
    if fs != [] && r.status == MoreExpected {
      var r' := Run(r.(buf := r.buf + fs[0]));
      RunGrows(r.(buf := r.buf + fs[0]));
      FeedGrows(r', fs[1..]);
    }
  }

  lemma {:induction false} TornGoesOn(r: Reader, fs: seq<seq<Byte>>)
    requires 0 < r.ntoread <= |r.buf| + |Concat(fs)| && r.status == MoreExpected && |r.buf| < r.ntoread
    ensures var n, body := |r.body|, Feed(r, fs).body;
      |body| == n || (n + r.ntoread <= |body| && body[n..n + r.ntoread] == (r.buf + Concat(fs))[..r.ntoread])
    decreases |fs|
  {
    var r1 := r.(buf := r.buf + fs[0]);
    assert r1.buf + Concat(fs[1..]) == r.buf + Concat(fs);
    if |r1.buf| < r.ntoread {
      assert Run(r1) == r1;
      TornGoesOn(r1, fs[1..]);
    } else {
      var r2 := Step(r1);
      RunGrows(r2);
      FeedGrows(Run(r2), fs[1..]);
      Taken(r, r1, Run(r2).body, Feed(Run(r2), fs[1..]).body, r.buf + Concat(fs));
    }
  }

  lemma Taken(r: Reader, r1: Reader, b: seq<Byte>, body: seq<Byte>, s: seq<Byte>)
    requires 0 < r.ntoread <= |r1.buf| <= |s| && r1.buf == s[..|r1.buf|]
    requires |r.body| + r.ntoread <= |b| <= |body| && b[..|r.body| + r.ntoread] == r.body + r1.buf[..r.ntoread] && body[..|b|] == b
    ensures body[|r.body|..|r.body| + r.ntoread] == s[..r.ntoread]
  {
    var n := |r.body|;
    assert body[..n + r.ntoread] == b[..n + r.ntoread];
    assert body[n..n + r.ntoread] == (r.body + r1.buf[..r.ntoread])[n..];
  }

  lemma {:induction false} Repeats(c: seq<Byte>, i: nat)
    requires i <= |c| && forall k :: 0 <= k < |c| ==> c[k] == ([LF] + c)[k]
    ensures forall k :: 0 <= k < i ==> c[k] == LF
  {
    if i > 0 {
      Repeats(c, i - 1);
    }
  }

  lemma TornIsWrong(r: Reader, fs: seq<seq<Byte>>, cs: Message, k: nat)
    requires Chunks(cs) && Torn(r, Concat(fs), cs, k)
    ensures Feed(r, fs).body != Concat(cs.chunks)
  {
    hide Feed, Coded, Step, Run, CanStep;
    var c, n := cs.chunks[k], |r.body|;
    TornGoesOn(r, fs);
    assert [] + Concat(fs) == Concat(fs);
    ConcatParts(cs.chunks, k);
    var body := Concat(cs.chunks);
    assert body[n..n + |c|] == c;
    if Feed(r, fs).body == body {
      CrBefore(cs, k);
      Repeats(c, |c|);
    }
  }

  lemma CrBefore(cs: Message, k: nat)
    requires k < |cs.chunks| && AfterCr(cs, k)[..|cs.chunks[k]|] == cs.chunks[k]
    ensures var c := cs.chunks[k]; forall i :: 0 <= i < |c| ==> c[i] == ([LF] + c)[i]
  {
    hide Coded;
    var c := cs.chunks[k];
    forall i | 0 <= i < |c|
      ensures c[i] == ([LF] + c)[i]
    {
      assert AfterCr(cs, k)[..|c|][i] == AfterCr(cs, k)[i] == ([LF] + c)[i];
    }
  }

  lemma ConcatParts(cs: seq<seq<Byte>>, k: nat)
    requires k < |cs|
    ensures var n := |Concat(cs[..k])|; n + |cs[k]| <= |Concat(cs)| && Concat(cs)[n..n + |cs[k]|] == cs[k]
  {
    hide Concat;
    ConcatNext(cs, k);
    ConcatPrefix(cs, k + 1);
    var n := |Concat(cs[..k])|;
    assert Concat(cs)[n..n + |cs[k]|] == Concat(cs)[..n + |cs[k]|][n..];
  }

  lemma {:induction false} ConcatPrefix(cs: seq<seq<Byte>>, k: nat)
    requires k <= |cs|
    ensures |Concat(cs[..k])| <= |Concat(cs)| && Concat(cs)[..|Concat(cs[..k])|] == Concat(cs[..k])
    decreases |cs| - k
  {
    if k == |cs| {
      assert cs[..k] == cs;
    } else {
      hide Concat;
      ConcatPrefix(cs, k + 1);
      ConcatNext(cs, k);
      var a, b := Concat(cs[..k]), Concat(cs[..k + 1]);
      assert Concat(cs)[..|a|] == Concat(cs)[..|b|][..|a|];
    }
  }

  // ---------- Where cuts may fall ----------

  lemma {:induction false} LaterIsShorter(cs: Message, k: nat, m: nat)
    requires k <= m <= |cs.chunks|
    ensures |Coded(cs, m)| <= |Coded(cs, k)|
    decreases m - k
  {
    if k < m {
      LaterIsShorter(cs, k + 1, m);
      EncodeLength(cs, k);
    }
  }

  lemma EncodeLength(cs: Message, k: nat)
    requires k < |cs.chunks|
    ensures |Coded(cs, k)| == |cs.Size(k)| + |cs.chunks[k]| + 4 + |Coded(cs, k + 1)|
    ensures |AfterCr(cs, k)| == |cs.chunks[k]| + 3 + |Coded(cs, k + 1)|
  {
  }

  lemma AtLeastFive(cs: Message, k: nat)
    requires Chunks(cs) && k <= |cs.chunks|
    ensures |Coded(cs, k)| >= 5
  {
    hide Chunks;
    SizeIsRead(cs, k);
    CodedStarts(cs, k);
  }

  // Where a reader waits in good order, the cut is harmless.
  lemma WaitingIsWhole(r: Reader, rest: seq<Byte>, cs: Message, m: nat)
    requires Chunks(cs) && Stuck(r) && OnTrack(r, rest, cs)
    ensures !Tears(rest, cs, m)
  {
    var k: nat, j :| Between(r, rest, cs, k, j) || Inside(r, rest, cs, k, j);
    if m < |cs.chunks| && rest == AfterCr(cs, m) {
      if Inside(r, rest, cs, k, j) {
        NotTornInside(r, rest, cs, m, k, j);
      } else {
        NotTornBetween(r, rest, cs, m, k, j);
      }
    }
  }

  lemma NotTornInside(r: Reader, rest: seq<Byte>, cs: Message, m: nat, k: nat, j: seq<Byte>)
    requires Chunks(cs) && Stuck(r) && Inside(r, rest, cs, k, j) && m < |cs.chunks| && |rest| == |AfterCr(cs, m)|
    ensures AllLf(cs.chunks[m])
  {
    hide Coded, AfterCr, Hex, EolIndex, AllLf;
    EncodeLength(cs, m);
    EncodeLength(cs, k);
    assert |r.buf + rest| == |cs.chunks[k]| + (|j| + |Coded(cs, k + 1)|);
    if m < k {
      LaterIsShorter(cs, m + 1, k);
    } else if m > k {
      LaterIsShorter(cs, k + 1, m);
    }
  }

  lemma NotTornBetween(r: Reader, rest: seq<Byte>, cs: Message, m: nat, k: nat, j: seq<Byte>)
    requires Chunks(cs) && Stuck(r) && m < |cs.chunks| && |rest| == |AfterCr(cs, m)|
    ensures !Between(r, rest, cs, k, j)
  {
    hide Coded, AfterCr, Hex, EolIndex, Concat;
    if Between(r, rest, cs, k, j) {
      assert |r.buf + rest| == |j| + |Coded(cs, k)|;
      EncodeLength(cs, m);
      if m < k {
        LaterIsShorter(cs, m + 1, k);
      } else {
        EncodeLength(cs, k);
        if k < m {
          LaterIsShorter(cs, k + 1, m);
        }
        LineIsThere(r, rest, cs, k, j);
      }
    }
  }

  // A reader that has seen past the first CR has a line to take.
  lemma LineIsThere(r: Reader, rest: seq<Byte>, cs: Message, k: nat, j: seq<Byte>)
    requires Chunks(cs) && Between(r, rest, cs, k, j) && k < |cs.chunks| && |r.buf| > |j|
    ensures |r.buf| > |j| + |cs.Size(k)| || j != [] ==> CanStep(r)
  {
    hide Coded, Hex, EolIndex, Concat;
    if j != [] {
      LeftOverEnds(r.buf, rest, cs, k, j);
    } else {
      assert [] + Coded(cs, k) == Coded(cs, k);
      CodedStarts(cs, k);
        FirstEol(r.buf, rest, cs.Size(k), AfterSize(cs, k));
    }
  }

  lemma {:induction false} TailIsSafe(fs: seq<seq<Byte>>, cs: Message)
    requires Chunks(cs) && |Concat(fs)| <= 3
    ensures SafeCuts(fs, cs)
  {
    if fs != [] {
      TailIsSafe(fs[1..], cs);
      ShortIsSafe(Concat(fs[1..]), cs);
    }
  }

  lemma ShortIsSafe(rest: seq<Byte>, cs: Message)
    requires Chunks(cs) && |rest| <= 3
    ensures forall k :: !Tears(rest, cs, k)
  {
    hide Coded;
    forall k | 0 <= k < |cs.chunks|
      ensures |AfterCr(cs, k)| > 3
    {
      AtLeastFive(cs, k + 1);
    }
  }

  // ---------- The main result ----------

  lemma OnTrackWithMore(r: Reader, f: seq<Byte>, rest: seq<Byte>, cs: Message)
    requires OnTrack(r, f + rest, cs)
    ensures OnTrack(r.(buf := r.buf + f), rest, cs)
  {
    hide Coded, Concat;
    var r1 := r.(buf := r.buf + f);
    assert r1.buf + rest == r.buf + (f + rest);
    var k: nat, j :| Between(r, f + rest, cs, k, j) || Inside(r, f + rest, cs, k, j);
    assert Between(r1, rest, cs, k, j) || Inside(r1, rest, cs, k, j);
  }

  lemma {:induction false} FeedSettles(r: Reader, fs: seq<seq<Byte>>, cs: Message)
    requires Chunks(cs) && Stuck(r) && OnTrack(r, Concat(fs), cs)
    ensures Complete(Feed(r, fs), cs) <==> SafeCuts(fs, cs)
    decreases |fs|
  {
    hide OnTrack, Run, CanStep, Tears, Torn;
    if fs == [] {
      NotStuckAtEnd(r, cs);
      assert false;
    } else {
      var rest := Concat(fs[1..]);
      OnTrackWithMore(r, fs[0], rest, cs);
      var r1 := r.(buf := r.buf + fs[0]);
      RunSettles(r1, rest, cs);
      AfterRun(Run(r1), fs, cs);
      if Stuck(Run(r1)) && OnTrack(Run(r1), rest, cs) {
        FeedSettles(Run(r1), fs[1..], cs);
      }
    }
  }

  lemma AfterRun(r: Reader, fs: seq<seq<Byte>>, cs: Message)
    requires Chunks(cs) && fs != [] && Settled(r, Concat(fs[1..]), cs)
    ensures Stuck(r) && OnTrack(r, Concat(fs[1..]), cs) ==> (SafeCuts(fs, cs) <==> SafeCuts(fs[1..], cs))
    ensures !(Stuck(r) && OnTrack(r, Concat(fs[1..]), cs)) ==> (Complete(Feed(r, fs[1..]), cs) <==> SafeCuts(fs, cs))
  {
    hide OnTrack, Run, CanStep, Tears, Torn;
    var rest := Concat(fs[1..]);
    if Stuck(r) && OnTrack(r, rest, cs) {
      forall m {
        WaitingIsWhole(r, rest, cs, m);
      }
    } else if Finished(r, rest, cs) {
      TailIsSafe(fs[1..], cs);
      ShortIsSafe(rest, cs);
    } else {
      var k :| Torn(r, rest, cs, k);
      TornTears(r, rest, cs, k);
      TornIsWrong(r, fs[1..], cs, k);
    }
  }

  lemma TornTears(r: Reader, rest: seq<Byte>, cs: Message, k: nat)
    requires Torn(r, rest, cs, k)
    ensures Tears(rest, cs, k)
  {
  }

  // However the encoding of some chunks is cut into pieces, the decoder reads all of it and gives the chunks back
  // exactly when no cut separates the CR and the LF of a size line, unless of a chunk that is all LF.
  lemma DecodesWhatIsEncoded(cs: Message, fs: seq<seq<Byte>>)
    requires Chunks(cs) && Concat(fs) == Coded(cs, 0)
    ensures Complete(Feed(Fresh, fs), cs) <==> SafeCuts(fs, cs)
  {
    hide Coded, SizeLine;
    assert cs.chunks[..0] == [];
    assert [] + Coded(cs, 0) == Coded(cs, 0);
    assert Between(Fresh, Concat(fs), cs, 0, []);
    FeedSettles(Fresh, fs, cs);
  }

  // So it is with what the encoder makes.
  lemma DecodesWhatIsPrinted(cs: seq<seq<Byte>>, fs: seq<seq<Byte>>)
    requires (forall k :: 0 <= k < |cs| ==> 0 < |cs[k]| < 0x8000_0000) && Concat(fs) == Encode(cs)
    ensures Complete(Feed(Fresh, fs), Printed(cs)) <==> SafeCuts(fs, Printed(cs))
  {
    hide Coded, Encode, Chunks;
    assert cs[0..] == cs;
    PrintedChunks(cs);
    PrintedIsEncoded(cs, 0);
    DecodesWhatIsEncoded(Printed(cs), fs);
  }

  // A body of one chunk, "hi", cut where it must not be: the reader has a LF and the h for the chunk, and takes the
  // i for the next size.
  lemma TornBody()
    ensures var c := [104 as Byte, 105];
      && Concat([Hex(2) + [CR], [LF] + c + CRLF + LastChunk()]) == Encode([c])
      && var r := Feed(Fresh, [Hex(2) + [CR], [LF] + c + CRLF + LastChunk()]);
      && r.status == Corrupted && r.body == [LF, 104]
  {
    hide Run, Step, CanStep;
    var c := [104 as Byte, 105];
    var f, g := Hex(2) + [CR], [LF] + c + CRLF + LastChunk();
    var none: seq<seq<Byte>> := [];
    assert [f, g][1..] == [g] && [g][1..] == none && [c][1..] == none;
    assert g + [] == g;
    ConcatTwo(f, g);
    assert f + g == Chunk(c) + LastChunk() == Encode([c]);
    SizeSeen(f);
    assert [] + f == f && [] + g == g;
    ChunkSeen(g);
    assert Feed(Reader(2, [], [], MoreExpected), [g]) == Run(Reader(2, g, [], MoreExpected));
  }

  lemma ConcatTwo(f: seq<Byte>, g: seq<Byte>)
    ensures Concat([f, g]) == f + g
  {
    var none: seq<seq<Byte>> := [];
    assert [f, g][1..] == [g] && [g][1..] == none;
    assert Concat(none) == [] && Concat([g]) == g + Concat(none);
    assert g + [] == g;
  }

  lemma SizeSeen(f: seq<Byte>)
    requires f == Hex(2) + [CR]
    ensures Run(Reader(-1, f, [], MoreExpected)) == Reader(2, [], [], MoreExpected)
  {
    SizeReadsBack(2);
    assert Hex(2) == [50] && f[..1] == Hex(2);
    EolIndexIs(f, 0, true, 1);
  }

  lemma ChunkSeen(g: seq<Byte>)
    requires g == [LF, 104, 105] + CRLF + LastChunk()
    ensures var r := Run(Reader(2, g, [], MoreExpected)); r.status == Corrupted && r.body == [LF, 104]
  {
    hide Hex;
    var t := g[2..];
    assert t[0] == 105 && t[1] == CR && t[..1] == [105];
    EolIndexIs(t, 0, true, 1);
    assert g[..2] == [LF, 104] && [] + g[..2] == g[..2];
    NotASize();
    var r0, r1 := Reader(2, g, [], MoreExpected), Reader(-1, t, [LF, 104], MoreExpected);
    assert CanStep(r0) && Step(r0) == r1 && CanStep(r1);
    assert Step(r1).status == Corrupted && Run(Step(r1)) == Step(r1);
    assert Run(r1) == Step(r1) && Run(r0) == Run(r1);
  }

  lemma NotASize()
    ensures SizeOf([105]) == Unreadable
  {
    var p: seq<Byte> := [105];
    assert Index(p, 0, 0) == 1 && p[..1] == p;
    assert HexDigit(105) == None && SkipSpace(p, 0) == 0 && SkipDigits(p, 0) == 0;
  }

  // ---------- On buffers ----------

  // What is sent for a chunk: its length is printed as an unsigned int.
  function SentChunk(c: seq<Byte>): seq<Byte> {
    Hex(|c| % 0x1_0000_0000) + CRLF + c + CRLF
  }

  // It is the chunk if and only if that has less than 2^32 bytes.
  lemma SentAsChunk(c: seq<Byte>)
    ensures SentChunk(c) == Chunk(c) <==> |c| < 0x1_0000_0000
  {
    hide Hex;
    if SentChunk(c) == Chunk(c) {
      var n, m := Hex(|c| % 0x1_0000_0000), Hex(|c|);
      assert |n| == |m|;
      assert SentChunk(c)[..|n|] == n && Chunk(c)[..|n|] == m;
      HexIsDigits(|c|);
      HexIsDigits(|c| % 0x1_0000_0000);
    }
  }

  // evhttp_send_reply_chunk, on the buffers it writes to and takes the chunk from.
  method SendChunk(out: Buffer, databuf: Buffer)
    requires out.Valid() && databuf.Valid() && out != databuf && out.orig != databuf.orig && out.sizeMax == databuf.sizeMax
    requires out.off + |SentChunk(databuf.Contents())| <= out.sizeMax
    modifies out, out.orig, databuf, databuf.orig
    ensures out.Valid() && databuf.Valid() && databuf.Contents() == []
    ensures out.Contents() == old(out.Contents()) + SentChunk(old(databuf.Contents()))
  {
    hide Hex, Buffer.Contents, Buffer.CannotExpand, Buffer.Told, Chained;
    ghost var before, c := out.Contents(), databuf.Contents();
    var n := databuf.off % 0x1_0000_0000;
    var r := out.Add(Hex(n) + CRLF, true);
    r := out.AddBuffer(databuf, true);
    r := out.Add(CRLF, true);
    Associate(before, Hex(n) + CRLF, c);
    Associate(before, Hex(n) + CRLF + c, CRLF);
  }

  // The bytes with which evhttp_send_reply_end ends a chunked reply.
  method SendEnd(out: Buffer)
    requires out.Valid() && out.off + 5 <= out.sizeMax
    modifies out, out.orig
    ensures out.Valid() && out.Contents() == old(out.Contents()) + LastChunk()
  {
    hide Buffer.Contents, Buffer.CannotExpand, Buffer.Told, Chained;
    var r := out.Add([48, CR, LF, CR, LF], true);
    assert LastChunk() == [48, CR, LF, CR, LF];
  }

  lemma LineIsAt(s: seq<Byte>, line: seq<Byte>, rest: seq<Byte>)
    requires LineRead(s, line, rest)
    ensures EolIndex(s, 0, true) == |line| < |s| && s[..|line|] == line && rest == AfterLine(s, |line|)
  {
    EolIndexIs(s, 0, true, |line|);
  }

  // A request that is being read: what is known of its body so far.
  class Request {
    var ntoread: int
    const inputBuffer: Buffer
    // Whether there is a chunk callback, and the bytes it has been given.
    const chunkCb: bool
    var delivered: seq<Byte>

    constructor (inputBuffer: Buffer, chunkCb: bool)
      ensures this.inputBuffer == inputBuffer && this.chunkCb == chunkCb && ntoread == -1 && delivered == []
    {
      this.inputBuffer, this.chunkCb, ntoread, delivered := inputBuffer, chunkCb, -1, [];
    }

    ghost predicate Valid(buf: Buffer)
      reads this, inputBuffer, buf
    {
      && buf.Valid() && inputBuffer.Valid() && buf != inputBuffer && buf.orig != inputBuffer.orig
      && inputBuffer.off + buf.off <= inputBuffer.sizeMax
    }

    // Where the reading stands.
    ghost function Now(buf: Buffer, status: Status): Reader
      requires Valid(buf)
      reads this, inputBuffer, inputBuffer.orig, buf, buf.orig
    {
      Reader(ntoread, buf.Contents(), delivered + inputBuffer.Contents(), status)
    }

    // evhttp_handle_chunked_read, with memory for its lines. The body is what the chunk callback has been given,
    // and what is in the input buffer.
    method HandleChunkedRead(buf: Buffer) returns (status: Status)
      requires Valid(buf)
      modifies this, inputBuffer, inputBuffer.orig, buf
      ensures Valid(buf) && Now(buf, status) == Run(old(Now(buf, MoreExpected)))
    {
      hide Step, CanStep, Buffer.Contents, Buffer.CannotExpand, Buffer.Told, Chained;
      status := MoreExpected;
      var going := true;
      while going
        invariant Valid(buf) && (fresh(inputBuffer.orig) || inputBuffer.orig == old(inputBuffer.orig)) && buf.orig == old(buf.orig)
        invariant Run(Now(buf, status)) == Run(old(Now(buf, MoreExpected)))
        invariant going ==> status == MoreExpected
        invariant !going ==> !CanStep(Now(buf, status))
        decreases going, buf.off, if ntoread < 0 then 0 else 1
      {
        going, status := Turn(buf);
      }
    }

    // A size line is taken, if there is a line.
    method TakeSize(buf: Buffer) returns (going: bool, status: Status)
      requires Valid(buf) && ntoread < 0 && buf.off > 0
      modifies this, buf
      ensures Valid(buf) && buf.orig == old(buf.orig)
      ensures inputBuffer.Contents() == old(inputBuffer.Contents()) && delivered == old(delivered)
      ensures !going && status == MoreExpected ==> Now(buf, status) == old(Now(buf, MoreExpected))
      ensures !going && status == MoreExpected <==> !CanStep(old(Now(buf, MoreExpected)))
      ensures CanStep(old(Now(buf, MoreExpected))) ==> Now(buf, status) == Step(old(Now(buf, MoreExpected)))
      ensures going ==> status == MoreExpected
    {
      hide SizeOf, Buffer.Told, Chained, LineRead, EolIndex, AfterLine;
      ghost var s := buf.Contents();
      var p := buf.Readline(true);
      if p.None? {
        EolIndexIs(s, 0, true, |s|);
        return false, MoreExpected;
      }
      LineIsAt(s, p.value, buf.Contents());
      var size := SizeOf(p.value);
      match size
      case Blank => return true, MoreExpected;
      case Unreadable => return false, Corrupted;
      case Of(n) =>
        ntoread := n;
        return n != 0, if n == 0 then AllRead else MoreExpected;
    }

    // A whole chunk is taken, if it is all there.
    method TakeChunk(buf: Buffer) returns (going: bool)
      requires Valid(buf) && ntoread >= 0 && buf.off > 0
      modifies this, inputBuffer, inputBuffer.orig, buf
      ensures Valid(buf) && (fresh(inputBuffer.orig) || inputBuffer.orig == old(inputBuffer.orig)) && buf.orig == old(buf.orig)
      ensures going == CanStep(old(Now(buf, MoreExpected)))
      ensures Now(buf, MoreExpected) == if going then Step(old(Now(buf, MoreExpected))) else old(Now(buf, MoreExpected))
    {
      hide Buffer.CannotExpand, Buffer.Told, Chained, Buffer.Contents;
      if buf.off < ntoread {
        return false;
      }
      ghost var s := buf.Contents();
      var chunk := buf.Front(ntoread);
      ghost var body := delivered + inputBuffer.Contents();
      Associate(delivered, inputBuffer.Contents(), chunk);
      var r := inputBuffer.Add(chunk, true);
      buf.Drain(ntoread);
      assert s[|s|..] == [];
      ntoread := -1;
      if chunkCb {
        CallBack();
      }
      return true;
    }

    // The chunk callback sees the input buffer, which is emptied after it.
    method CallBack()
      requires inputBuffer.Valid()
      modifies this`delivered, inputBuffer
      ensures inputBuffer.Valid() && inputBuffer.orig == old(inputBuffer.orig) && inputBuffer.off == 0
      ensures delivered + inputBuffer.Contents() == old(delivered + inputBuffer.Contents())
    {
      hide Buffer.Told, Chained;
      var seen := inputBuffer.Front(inputBuffer.off);
      assert seen == inputBuffer.Contents();
      delivered := delivered + seen;
      inputBuffer.Drain(inputBuffer.off);
      assert delivered + [] == delivered;
    }

    // One turn of its loop, if there is something to take.
    method Turn(buf: Buffer) returns (going: bool, status: Status)
      requires Valid(buf)
      modifies this, inputBuffer, inputBuffer.orig, buf
      ensures Valid(buf) && (fresh(inputBuffer.orig) || inputBuffer.orig == old(inputBuffer.orig)) && buf.orig == old(buf.orig)
      ensures !CanStep(old(Now(buf, MoreExpected))) ==> !going && Now(buf, status) == old(Now(buf, MoreExpected))
      ensures CanStep(old(Now(buf, MoreExpected))) ==> Now(buf, status) == Step(old(Now(buf, MoreExpected)))
      ensures going ==> CanStep(old(Now(buf, MoreExpected))) && status == MoreExpected
      ensures !going ==> !CanStep(Now(buf, status))
    {
      if buf.off == 0 {
        return false, MoreExpected;
      }
      if ntoread < 0 {
        going, status := TakeSize(buf);
      } else {
        going := TakeChunk(buf);
        status := MoreExpected;
      }
    }
  }
}
