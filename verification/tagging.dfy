// Tagged records as event_tagging.c writes and reads them: integers in nibbles, tags in base 128.
module Tagging {
  import opened Bytes

  const TWO32: nat := 0x1_0000_0000

  // ---------- Integers ----------

  // The nibbles of a number, least significant first.
  function Digits(x: nat): (d: seq<nat>)
    ensures forall i :: 0 <= i < |d| ==> d[i] < 16
  {
    if x == 0 then [] else [x % 16] + Digits(x / 16)
  }

  // Nibble k of a run of bytes: the high one of a byte comes first.
  function Nibble(s: seq<Byte>, k: nat): (n: nat)
    requires k / 2 < |s|
    ensures n < 16
  {
    if k % 2 == 1 then s[k / 2] as int % 16 else s[k / 2] as int / 16
  }

  // How many nibbles are written for a number, less one.
  function Header(x: nat): nat {
    var n := |Digits(x)|;
    if n > 1 then n - 1 else 0
  }

  // s is the encoding of x: the count of nibbles less one, then the nibbles, then zero to the end of the byte.
  ghost predicate EncodesInt(s: seq<Byte>, x: nat) {
    var d := Digits(x);
    && |s| == |d| / 2 + 1
    && Nibble(s, 0) == Header(x)
    && (forall k :: 1 <= k < 2 * |s| ==> Nibble(s, k) == if k <= |d| then d[k - 1] else 0)
  }

  // The number in nibbles k to n, the first of them the least significant.
  function Value(s: seq<Byte>, k: nat, n: nat): nat
    requires n / 2 < |s|
    decreases n + 1 - k
  {
    if k > n then 0 else Nibble(s, k) + 16 * Value(s, k + 1, n)
  }

  datatype Int = Int(number: nat, length: nat)

  function DecodeInt(s: seq<Byte>): (r: Option<Int>)
    ensures r.Some? ==> 0 < r.value.length <= |s|
  {
    if s == [] then None
    else
      var nibbles := Nibble(s, 0) + 1;
      if nibbles > 8 || nibbles / 2 + 1 > |s| then None
      else Some(Int(Value(s, 1, nibbles), nibbles / 2 + 1))
  }

  function Pow16(k: nat): nat {
    if k == 0 then 1 else 16 * Pow16(k - 1)
  }

  lemma {:induction false} DigitsFit(x: nat, k: nat)
    requires x < Pow16(k)
    ensures |Digits(x)| <= k
    decreases k
  {
    if x != 0 {
      DigitsFit(x / 16, k - 1);
    }
  }

  lemma ThirtyTwoBits(x: nat)
    requires x < TWO32
    ensures |Digits(x)| <= 8
  {
    assert Pow16(2) == 256 && Pow16(4) == 65536 && Pow16(6) == 0x100_0000;
    DigitsFit(x, 8);
  }

  lemma {:induction false} ValueOfDigits(s: seq<Byte>, k: nat, x: nat)
    requires (k + |Digits(x)| - 1) / 2 < |s| && k > 0
    requires forall i :: 0 <= i < |Digits(x)| ==> Nibble(s, k + i) == Digits(x)[i]
    ensures Value(s, k, k + |Digits(x)| - 1) == x
    decreases x
  {
    if x != 0 {
      var d := Digits(x);
      assert d[1..] == Digits(x / 16);
      forall i | 0 <= i < |Digits(x / 16)|
        ensures Nibble(s, k + 1 + i) == Digits(x / 16)[i]
      {
        assert Nibble(s, k + (i + 1)) == d[i + 1];
      }
      ValueOfDigits(s, k + 1, x / 16);
      assert Nibble(s, k + 0) == d[0];
    }
  }

  lemma {:induction false} ValueIgnoresRest(s: seq<Byte>, t: seq<Byte>, k: nat, n: nat)
    requires n / 2 < |s|
    ensures Value(s + t, k, n) == Value(s, k, n)
    decreases n + 1 - k
  {
    if k <= n {
      ValueIgnoresRest(s, t, k + 1, n);
    }
  }

  // Whatever follows, an encoded number is read back, and just its bytes are read.
  lemma IntReadsBack(s: seq<Byte>, x: nat, rest: seq<Byte>)
    requires x < TWO32 && EncodesInt(s, x)
    ensures DecodeInt(s + rest) == Some(Int(x, |s|))
  {
    var n := Header(x) + 1;
    ThirtyTwoBits(x);
    assert Nibble(s + rest, 0) == Nibble(s, 0);
    assert n / 2 + 1 == |s|;
    ValueIgnoresRest(s, rest, 1, n);
    if x == 0 {
      assert Value(s, 1, 1) == Nibble(s, 1) + 16 * Value(s, 2, 1);
    } else {
      forall i | 0 <= i < |Digits(x)|
        ensures Nibble(s, 1 + i) == Digits(x)[i]
      {
      }
      ValueOfDigits(s, 1, x);
    }
  }

  // The bytes that encode x: there is one way.
  function EncodedInt(x: nat): (s: seq<Byte>)
    requires x < TWO32
    ensures EncodesInt(s, x) && |s| <= 5
    ensures forall t :: EncodesInt(t, x) ==> t == s
  {
    ThirtyTwoBits(x);
    var s := seq(|Digits(x)| / 2 + 1, j requires 0 <= j => (16 * NibbleOf(x, 2 * j) + NibbleOf(x, 2 * j + 1)) as Byte);
    TheseNibbles(s, x);
    OneEncoding(s, x);
    s
  }

  function NibbleOf(x: nat, k: nat): (n: nat)
    requires |Digits(x)| <= 8
    ensures n < 16
  {
    if k == 0 then Header(x) else if k <= |Digits(x)| then Digits(x)[k - 1] else 0
  }

  lemma TheseNibbles(s: seq<Byte>, x: nat)
    requires |Digits(x)| <= 8 && |s| == |Digits(x)| / 2 + 1
    requires forall j :: 0 <= j < |s| ==> s[j] as int == 16 * NibbleOf(x, 2 * j) + NibbleOf(x, 2 * j + 1)
    ensures EncodesInt(s, x)
  {
    forall k | 0 <= k < 2 * |s|
      ensures Nibble(s, k) == NibbleOf(x, k)
    {
      OneNibble(s[k / 2], NibbleOf(x, 2 * (k / 2)), NibbleOf(x, 2 * (k / 2) + 1));
      assert k == 2 * (k / 2) + k % 2;
    }
  }

  lemma OneNibble(b: Byte, high: nat, low: nat)
    requires high < 16 && low < 16 && b as int == 16 * high + low
    ensures b as int / 16 == high && b as int % 16 == low
  {
  }

  lemma OneEncoding(s: seq<Byte>, x: nat)
    requires EncodesInt(s, x)
    ensures forall t :: EncodesInt(t, x) ==> t == s
  {
    forall t | EncodesInt(t, x)
      ensures t == s
    {
      forall j | 0 <= j < |s|
        ensures t[j] == s[j]
      {
        assert Nibble(t, 2 * j) == Nibble(s, 2 * j) && Nibble(t, 2 * j + 1) == Nibble(s, 2 * j + 1);
      }
    }
  }

  // encode_int, into the five bytes of `data`.
  method EncodeInt(number: nat) returns (data: seq<Byte>)
    requires number < TWO32
    ensures data == EncodedInt(number)
  {
    var bytes := new Byte[5](_ => 0);
    var off, left := 1, number;
    ghost var d := Digits(number);
    ThirtyTwoBits(number);
    assert d[0..] == d;
    while left != 0
      invariant 1 <= off <= |d| + 1 <= 9 && d[off - 1..] == Digits(left)
      invariant forall k :: 0 <= k < 10 ==> Nibble(bytes[..], k) == if 0 < k < off then d[k - 1] else 0
      decreases left
    {
      assert d[off - 1] == left % 16 && d[off..] == Digits(left / 16) by {
        assert d[off - 1..][0] == d[off - 1] && d[off - 1..][1..] == d[off..];
      }
      SetNibble(bytes, off, left % 16);
      left := left / 16;
      off := off + 1;
    }
    assert off == |d| + 1;
    var nibbles := if off > 2 then off - 2 else 0;
    SetNibble(bytes, 0, nibbles);
    data := bytes[..(off + 1) / 2];
    forall k | 0 <= k < 2 * |data|
      ensures Nibble(data, k) == Nibble(bytes[..], k)
    {
    }
    assert EncodesInt(data, number);
  }

  // Replaces nibble k: the low one of its byte when k is odd, else the high one.
  method SetNibble(bytes: array<Byte>, k: nat, n: nat)
    requires k / 2 < bytes.Length && n < 16
    modifies bytes
    ensures Nibble(bytes[..], k) == n
    ensures forall j :: 0 <= j < 2 * bytes.Length && j != k ==> Nibble(bytes[..], j) == Nibble(old(bytes[..]), j)
  {
    ghost var before := bytes[..];
    var b := bytes[k / 2] as int;
    if k % 2 == 1 {
      bytes[k / 2] := (b / 16 * 16 + n) as Byte;
    } else {
      bytes[k / 2] := (b % 16 + n * 16) as Byte;
    }
    forall j | 0 <= j < 2 * bytes.Length && j != k
      ensures Nibble(bytes[..], j) == Nibble(before, j)
    {
    }
  }

  // The loop of decode_int_internal.
  method ReadInt(s: seq<Byte>) returns (r: Option<Int>)
    ensures r == DecodeInt(s)
  {
    if s == [] {
      return None;
    }
    var nibbles := s[0] as int / 16 + 1;
    if nibbles > 8 || nibbles / 2 + 1 > |s| {
      return None;
    }
    var n, number := nibbles, 0;
    while nibbles > 0
      invariant 0 <= nibbles <= n
      invariant number == Value(s, nibbles + 1, n)
    {
      number := number * 16;
      if nibbles % 2 == 1 {
        number := number + s[nibbles / 2] as int % 16;
      } else {
        number := number + s[nibbles / 2] as int / 16;
      }
      nibbles := nibbles - 1;
    }
    return Some(Int(number, n / 2 + 1));
  }

  // ---------- Tags ----------

  function Pow128(k: nat): nat {
    if k == 0 then 1 else 128 * Pow128(k - 1)
  }

  // Seven bits a byte, least significant first; the high bit says that more follow.
  function EncodeTag(tag: nat): (s: seq<Byte>)
    ensures |s| > 0
  {
    if tag < 128 then [tag as Byte] else [(tag % 128 + 128) as Byte] + EncodeTag(tag / 128)
  }

  // The place of the first byte at or after i without the high bit, or the length.
  function LastOfTag(s: seq<Byte>, i: nat): (k: nat)
    requires i <= |s|
    ensures i <= k <= |s|
    decreases |s| - i
  {
    if i == |s| || s[i] < 128 then i else LastOfTag(s, i + 1)
  }

  // The low seven bits of the first k bytes put together.
  function Base128(s: seq<Byte>, k: nat): nat
    requires k <= |s|
  {
    if k == 0 then 0 else Base128(s, k - 1) + s[k - 1] as int % 128 * Pow128(k - 1)
  }

  // Bits past the 32nd are lost.
  function DecodeTag(s: seq<Byte>): (r: Option<Int>)
    ensures r.Some? ==> 0 < r.value.length <= |s|
  {
    var k := LastOfTag(s, 0);
    if k == |s| then None else Some(Int(Base128(s, k + 1) % TWO32, k + 1))
  }

  lemma {:induction false} LastOfTagAfter(b: Byte, s: seq<Byte>, i: nat)
    requires i <= |s|
    ensures LastOfTag([b] + s, i + 1) == LastOfTag(s, i) + 1
    decreases |s| - i
  {
    if i < |s| {
      LastOfTagAfter(b, s, i + 1);
    }
  }

  lemma {:induction false} Base128After(b: Byte, s: seq<Byte>, k: nat)
    requires k <= |s|
    ensures Base128([b] + s, k + 1) == b as int % 128 + 128 * Base128(s, k)
  {
    var t := [b] + s;
    if k == 0 {
      assert Base128(t, 1) == Base128(t, 0) + t[0] as int % 128 * Pow128(0);
    } else {
      Base128After(b, s, k - 1);
      var x, p := s[k - 1] as int % 128, Pow128(k - 1);
      assert t[k] == s[k - 1];
      assert x * (128 * p) == 128 * (x * p);
    }
  }

  lemma {:induction false} TagIsFound(tag: nat, rest: seq<Byte>)
    ensures var s := EncodeTag(tag); LastOfTag(s + rest, 0) == |s| - 1 && Base128(s + rest, |s|) == tag
    decreases tag
  {
    var s := EncodeTag(tag);
    if tag < 128 {
      assert s + rest == [tag as Byte] + rest;
      Base128After(tag as Byte, rest, 0);
    } else {
      var b, more := (tag % 128 + 128) as Byte, EncodeTag(tag / 128);
      TagIsFound(tag / 128, rest);
      assert s + rest == [b] + (more + rest);
      LastOfTagAfter(b, more + rest, 0);
      Base128After(b, more + rest, |more|);
      assert b as int % 128 == tag % 128 && tag == tag % 128 + 128 * (tag / 128);
    }
  }

  // Whatever follows, a tag is read back, and just its bytes are read.
  lemma TagReadsBack(tag: nat, rest: seq<Byte>)
    requires tag < TWO32
    ensures DecodeTag(EncodeTag(tag) + rest) == Some(Int(tag, |EncodeTag(tag)|))
  {
    TagIsFound(tag, rest);
  }

  lemma {:induction false} TagLength(tag: nat, k: nat)
    requires 0 < k && tag < Pow128(k)
    ensures |EncodeTag(tag)| <= k
  {
    assert Pow128(1) == 128;
    if tag >= 128 {
      TagLength(tag / 128, k - 1);
    }
  }

  lemma TagFits(tag: nat)
    requires tag < TWO32
    ensures |EncodeTag(tag)| <= 5
  {
    assert Pow128(2) == 16384 && Pow128(4) == 0x1000_0000;
    TagLength(tag, 5);
  }

  // evtag_encode_tag, into the five bytes of `data`.
  method WriteTag(tag: nat) returns (data: seq<Byte>)
    requires tag < TWO32
    ensures data == EncodeTag(tag) && |data| <= 5
  {
    hide EncodeTag;
    TagFits(tag);
    var buf := new Byte[5](_ => 0);
    var bytes, left := 0, tag;
    assert [] + EncodeTag(tag) == EncodeTag(tag);
    while true
      invariant 0 <= bytes && bytes + |EncodeTag(left)| <= 5
      invariant buf[..bytes] + EncodeTag(left) == EncodeTag(tag)
      decreases left
    {
      ghost var before := buf[..bytes];
      var lower, next := left % 128, left / 128;
      if next != 0 {
        lower := lower + 128;
      }
      TagStep(before, left, lower as Byte);
      buf[bytes] := lower as Byte;
      assert buf[..bytes + 1] == before + [lower as Byte];
      bytes, left := bytes + 1, next;
      if left == 0 {
        break;
      }
    }
    data := buf[..bytes];
  }

  lemma TagStep(before: seq<Byte>, left: nat, b: Byte)
    requires b as int == left % 128 + if left < 128 then 0 else 128
    ensures left < 128 ==> before + EncodeTag(left) == before + [b]
    ensures left >= 128 ==>
      before + EncodeTag(left) == before + [b] + EncodeTag(left / 128) && |EncodeTag(left)| == 1 + |EncodeTag(left / 128)|
  {
    if left >= 128 {
      assert before + ([b] + EncodeTag(left / 128)) == before + [b] + EncodeTag(left / 128);
    }
  }

  lemma ModuloSum(a: nat, b: nat)
    ensures (a % TWO32 + b) % TWO32 == (a + b) % TWO32
  {
  }

  // The loop of decode_tag_internal. A byte's seven bits are shifted above the ones before; what a shift takes
  // past the 32 bits is lost.
  method ReadTag(s: seq<Byte>) returns (r: Option<Int>)
    ensures r == DecodeTag(s)
  {
    var number, count := 0, 0;
    while count < |s|
      invariant count <= |s| && LastOfTag(s, 0) == LastOfTag(s, count)
      invariant number == Base128(s, count) % TWO32
      decreases |s| - count
    {
      var lower := s[count] as int;
      ModuloSum(Base128(s, count), lower % 128 * Pow128(count));
      number := (number + lower % 128 * Pow128(count)) % TWO32;
      count := count + 1;
      if lower < 128 {
        return Some(Int(number, count));
      }
    }
    return None;
  }
}
