module Bytes {
  newtype Byte = x: int | 0 <= x < 256

  // The bytes of a C string, without the NUL that ends it.
  predicate NoNul(s: seq<Byte>) {
    0 !in s
  }

  datatype Option<+T> = None | Some(value: T)

  // Big-endian 16- and 32-bit fields, as htons/htonl followed by memcpy lay them out.
  function U16(x: nat): (b: seq<Byte>)
    ensures |b| == 2
  {
    [((x / 256) % 256) as Byte, (x % 256) as Byte]
  }

  function U32(x: nat): (b: seq<Byte>)
    ensures |b| == 4
  {
    U16(x / 65536) + U16(x % 65536)
  }

  // The numbers that ntohs and ntohl take from a message.
  function At16(m: seq<Byte>, i: nat): (x: nat)
    requires i + 2 <= |m|
    ensures x < 0x1_0000
  {
    m[i] as nat * 256 + m[i + 1] as nat
  }

  function At32(m: seq<Byte>, i: nat): (x: nat)
    requires i + 4 <= |m|
  {
    At16(m, i) * 0x1_0000 + At16(m, i + 2)
  }

  lemma FieldIsRead(m: seq<Byte>, x: nat, tail: seq<Byte>)
    ensures At16(m + U16(x) + tail, |m|) == x % 0x1_0000
  {
  }

  lemma LongFieldIsRead(m: seq<Byte>, x: nat, tail: seq<Byte>)
    ensures At32(m + U32(x) + tail, |m|) == x % 0x1_0000_0000
  {
    var s, high, low := m + U32(x) + tail, U16(x / 65536), U16(x % 65536);
    assert s == m + high + (low + tail) == m + high + low + tail;
    FieldIsRead(m, x / 65536, low + tail);
    FieldIsRead(m + high, x % 65536, tail);
    assert x / 65536 % 65536 * 65536 + x % 65536 == x % 0x1_0000_0000;
  }

  // What stands in a message stands in a longer one.
  lemma FieldsStay(m: seq<Byte>, tail: seq<Byte>)
    ensures forall i: nat :: i + 2 <= |m| ==> At16(m + tail, i) == At16(m, i)
    ensures forall i: nat :: i + 4 <= |m| ==> At32(m + tail, i) == At32(m, i)
  {
  }

  lemma Associate<T>(a: seq<T>, b: seq<T>, c: seq<T>)
    ensures a + b + c == a + (b + c)
  {
  }
}

// The wire form of domain names (section 4.1.4 of RFC 1035) as a reader sees it.
module Names {
  import opened Bytes

  const DOT: Byte := 46

  type Label = seq<Byte>

  // `next` is the offset just past the bytes the name occupies where it starts.
  datatype Decoded = Decoded(labels: seq<Label>, next: nat)

  // The name at offset j of message m, following at most `jumps` compression pointers.
  function Decode(m: seq<Byte>, j: nat, jumps: nat): Option<Decoded>
    decreases jumps, |m| - j
  {
    if j >= |m| then None
    else if m[j] == 0 then Some(Decoded([], j + 1))
    else if m[j] >= 64 then
      if j + 1 >= |m| || jumps == 0 then None
      else
        var target := PointerTarget(m, j);
        if target >= |m| then None
        else match Decode(m, target, jumps - 1)
          case None => None
          case Some(d) => Some(Decoded(d.labels, j + 2))
    else
      var e := j + 1 + m[j] as int;
      if e >= |m| then None
      else match Decode(m, e, jumps)
        case None => None
        case Some(d) => Some(Decoded([m[j + 1..e]] + d.labels, d.next))
  }

  function PointerTarget(m: seq<Byte>, j: nat): nat
    requires j + 1 < |m|
  {
    (m[j] as int % 64) * 256 + m[j + 1] as int
  }

  // Message m holds a name at offset j whose chain of pointers ends, however long it is.
  ghost predicate Denotes(m: seq<Byte>, j: nat, d: Decoded) {
    exists n: nat :: Decode(m, j, n) == Some(d)
  }

  // The dotted text of a name.
  function Join(labels: seq<Label>): seq<Byte> {
    if |labels| == 0 then []
    else if |labels| == 1 then labels[0]
    else labels[0] + [DOT] + Join(labels[1..])
  }

  // ---------- Decoding is stable under more jumps and more bytes ----------

  lemma {:induction false} DecodeMoreJumps(m: seq<Byte>, j: nat, n: nat, k: nat)
    requires Decode(m, j, n).Some? && n <= k
    ensures Decode(m, j, k) == Decode(m, j, n)
    decreases n, |m| - j
  {
    if m[j] == 0 {
    } else if m[j] >= 64 {
      DecodeMoreJumps(m, PointerTarget(m, j), n - 1, k - 1);
    } else {
      DecodeMoreJumps(m, j + 1 + m[j] as int, n, k);
    }
  }

  lemma {:induction false} DecodeLongerMessage(m: seq<Byte>, tail: seq<Byte>, j: nat, n: nat)
    requires Decode(m, j, n).Some?
    ensures Decode(m + tail, j, n) == Decode(m, j, n)
    decreases n, |m| - j
  {
    if m[j] == 0 {
    } else if m[j] >= 64 {
      DecodeLongerMessage(m, tail, PointerTarget(m, j), n - 1);
    } else {
      var e := j + 1 + m[j] as int;
      DecodeLongerMessage(m, tail, e, n);
      assert (m + tail)[j + 1..e] == m[j + 1..e];
    }
  }

  lemma {:induction false} DecodeBounds(m: seq<Byte>, j: nat, n: nat)
    requires Decode(m, j, n).Some?
    ensures j < Decode(m, j, n).value.next <= |m|
    ensures forall l :: l in Decode(m, j, n).value.labels ==> 0 < |l| < 64
    decreases n, |m| - j
  {
    if m[j] == 0 {
    } else if m[j] >= 64 {
      DecodeBounds(m, PointerTarget(m, j), n - 1);
    } else {
      DecodeBounds(m, j + 1 + m[j] as int, n);
    }
  }

  // ---------- A chain of pointers that ends never needs more jumps than the message has bytes ----------

  ghost function JumpsTaken(m: seq<Byte>, j: nat, n: nat): nat
    requires Decode(m, j, n).Some?
    decreases n, |m| - j
  {
    if m[j] == 0 then 0
    else if m[j] >= 64 then 1 + JumpsTaken(m, PointerTarget(m, j), n - 1)
    else JumpsTaken(m, j + 1 + m[j] as int, n)
  }

  lemma {:induction false} JumpsTakenSuffice(m: seq<Byte>, j: nat, n: nat)
    requires Decode(m, j, n).Some?
    ensures JumpsTaken(m, j, n) <= n
    ensures Decode(m, j, JumpsTaken(m, j, n)) == Decode(m, j, n)
    decreases n, |m| - j
  {
    if m[j] == 0 {
    } else if m[j] >= 64 {
      JumpsTakenSuffice(m, PointerTarget(m, j), n - 1);
    } else {
      JumpsTakenSuffice(m, j + 1 + m[j] as int, n);
    }
  }

  lemma {:induction false} JumpsTakenUnique(m: seq<Byte>, j: nat, n: nat, k: nat)
    requires Decode(m, j, n).Some? && Decode(m, j, k).Some?
    ensures JumpsTaken(m, j, n) == JumpsTaken(m, j, k)
    decreases n, |m| - j
  {
    if m[j] == 0 {
    } else if m[j] >= 64 {
      JumpsTakenUnique(m, PointerTarget(m, j), n - 1, k - 1);
    } else {
      JumpsTakenUnique(m, j + 1 + m[j] as int, n, k);
    }
  }

  // From offset t, fewer than `bound` jumps are still ahead.
  ghost predicate Nearer(m: seq<Byte>, t: nat, bound: nat) {
    exists k: nat :: Decode(m, t, k).Some? && JumpsTaken(m, t, k) < bound
  }

  // The offsets the pointers lead to. No offset is visited twice, since the number of jumps still
  // ahead depends only on the offset and goes down with each one.
  ghost function Visited(m: seq<Byte>, j: nat, n: nat): set<nat>
    requires Decode(m, j, n).Some?
    decreases n, |m| - j
  {
    if m[j] == 0 then {}
    else if m[j] >= 64 then {PointerTarget(m, j)} + Visited(m, PointerTarget(m, j), n - 1)
    else Visited(m, j + 1 + m[j] as int, n)
  }

  lemma {:induction false} VisitedTargets(m: seq<Byte>, j: nat, n: nat)
    requires Decode(m, j, n).Some?
    ensures |Visited(m, j, n)| == JumpsTaken(m, j, n)
    ensures forall t :: t in Visited(m, j, n) ==> t < |m| && Nearer(m, t, JumpsTaken(m, j, n))
    decreases n, |m| - j
  {
    hide Nearer;
    if m[j] >= 64 {
      var t := PointerTarget(m, j);
      VisitedTargets(m, t, n - 1);
      NotVisitedAgain(m, t, n - 1);
      IsNearer(m, t, n - 1, JumpsTaken(m, j, n));
      OneJumpMore(m, t, Visited(m, t, n - 1), JumpsTaken(m, t, n - 1));
    } else if m[j] > 0 {
      VisitedTargets(m, j + 1 + m[j] as int, n);
    }
  }

  lemma OneJumpMore(m: seq<Byte>, t: nat, rest: set<nat>, taken: nat)
    requires t < |m| && t !in rest && |rest| == taken && Nearer(m, t, taken + 1)
    requires forall x :: x in rest ==> x < |m| && Nearer(m, x, taken)
    ensures |{t} + rest| == taken + 1
    ensures forall x :: x in {t} + rest ==> x < |m| && Nearer(m, x, taken + 1)
  {
    hide Nearer;
    forall x | x in rest
      ensures Nearer(m, x, taken + 1)
    {
      NearerStill(m, x, taken, taken + 1);
    }
  }

  lemma NotVisitedAgain(m: seq<Byte>, t: nat, n: nat)
    requires Decode(m, t, n).Some? && forall x :: x in Visited(m, t, n) ==> Nearer(m, x, JumpsTaken(m, t, n))
    ensures t !in Visited(m, t, n)
  {
    hide Visited, Decode;
    if t in Visited(m, t, n) {
      var k: nat :| Decode(m, t, k).Some? && JumpsTaken(m, t, k) < JumpsTaken(m, t, n);
      JumpsTakenUnique(m, t, k, n);
      assert false;
    }
  }

  lemma IsNearer(m: seq<Byte>, t: nat, n: nat, bound: nat)
    requires Decode(m, t, n).Some? && JumpsTaken(m, t, n) < bound
    ensures Nearer(m, t, bound)
  {
  }

  lemma NearerStill(m: seq<Byte>, t: nat, a: nat, b: nat)
    requires Nearer(m, t, a) && a <= b
    ensures Nearer(m, t, b)
  {
    hide Decode;
    var k: nat :| Decode(m, t, k).Some? && JumpsTaken(m, t, k) < a;
  }

  lemma {:induction false} BoundedSetSize(s: set<nat>, n: nat)
    requires forall x :: x in s ==> x < n
    ensures |s| <= n
  {
    if n == 0 {
      assert s == {};
    } else {
      BoundedSetSize(s - {n - 1}, n - 1);
      assert |s| <= |s - {n - 1}| + 1;
    }
  }

  // The name at offset j, when at most as many pointers are followed as the message has bytes.
  function NameAt(m: seq<Byte>, j: nat): Option<Decoded> {
    Decode(m, j, |m|)
  }

  function Text(m: seq<Byte>, j: nat): seq<Byte>
    requires NameAt(m, j).Some?
  {
    Join(NameAt(m, j).value.labels)
  }

  // The limit of name_parse on jumps turns away exactly the names whose pointers never end.
  lemma JumpLimitIsExact(m: seq<Byte>, j: nat, d: Decoded)
    ensures Denotes(m, j, d) <==> NameAt(m, j) == Some(d)
  {
    if Denotes(m, j, d) {
      var n: nat :| Decode(m, j, n) == Some(d);
      VisitedTargets(m, j, n);
      BoundedSetSize(Visited(m, j, n), |m|);
      JumpsTakenSuffice(m, j, n);
      DecodeMoreJumps(m, j, JumpsTaken(m, j, n), |m|);
    }
  }

  lemma NameAtLonger(m: seq<Byte>, tail: seq<Byte>, j: nat)
    requires NameAt(m, j).Some?
    ensures NameAt(m + tail, j) == NameAt(m, j)
  {
    DecodeMoreJumps(m, j, |m|, |m + tail|);
    DecodeLongerMessage(m, tail, j, |m + tail|);
  }

  // ---------- Joining labels ----------

  lemma {:induction false} JoinAppend(ls: seq<Label>, l: Label)
    ensures Join(ls + [l]) == if ls == [] then l else Join(ls) + [DOT] + l
  {
    if |ls| == 0 {
    } else if |ls| == 1 {
      assert (ls + [l])[1..] == [l];
    } else {
      JoinAppend(ls[1..], l);
      assert (ls + [l])[1..] == ls[1..] + [l];
    }
  }

  lemma {:induction false} JoinGrows(ls: seq<Label>, more: seq<Label>)
    ensures |Join(ls)| <= |Join(ls + more)|
    decreases |more|
  {
    if more == [] {
      assert ls + more == ls;
    } else {
      JoinAppend(ls, more[0]);
      JoinGrows(ls + [more[0]], more[1..]);
      assert ls + [more[0]] + more[1..] == ls + more;
    }
  }

  // ---------- The decoder ----------

  // The rest of a name, read at offset j with `jumps` jumps left, completes the labels read so far.
  ghost predicate Completes(whole: Option<Decoded>, m: seq<Byte>, done: seq<Label>, j: nat, jumps: nat, nameEnd: int) {
    var rest := Decode(m, j, jumps);
    && (whole.Some? <==> rest.Some?)
    && (whole.Some? ==>
          && whole.value.labels == done + rest.value.labels
          && whole.value.next == if nameEnd < 0 then rest.value.next else nameEnd)
  }

  lemma LabelFits(whole: Option<Decoded>, m: seq<Byte>, done: seq<Label>, j: nat, jumps: nat, nameEnd: int, l: Label)
    requires Completes(whole, m, done, j, jumps, nameEnd)
    requires j < |m| && 0 < m[j] < 64 && |l| == m[j] as int
    ensures whole.Some? ==> j + 1 + m[j] as int < |m| && |Join(done + [l])| <= |Join(whole.value.labels)|
  {
    if whole.Some? {
      var e := j + 1 + m[j] as int;
      var rest := Decode(m, e, jumps).value.labels;
      assert done + ([m[j + 1..e]] + rest) == done + [m[j + 1..e]] + rest;
      JoinGrows(done + [m[j + 1..e]], rest);
      JoinAppend(done, m[j + 1..e]);
      JoinAppend(done, l);
    }
  }

  lemma ReadLabel(whole: Option<Decoded>, m: seq<Byte>, done: seq<Label>, j: nat, jumps: nat, nameEnd: int, l: Label)
    requires Completes(whole, m, done, j, jumps, nameEnd)
    requires j < |m| && 0 < m[j] < 64
    requires j + 1 + m[j] as int < |m| ==> l == m[j + 1..j + 1 + m[j] as int]
    ensures Completes(whole, m, done + [l], j + 1 + m[j] as int, jumps, nameEnd)
  {
    if whole.Some? {
      var rest := Decode(m, j + 1 + m[j] as int, jumps).value.labels;
      assert done + ([l] + rest) == done + [l] + rest;
    }
  }

  lemma NothingRead(m: seq<Byte>, j: nat)
    ensures Completes(NameAt(m, j), m, [], j, |m|, -1)
    ensures forall out :: Spelled(out, 0, [])
  {
    if NameAt(m, j).Some? {
      assert [] + NameAt(m, j).value.labels == NameAt(m, j).value.labels;
    }
  }

  lemma StopsHere(whole: Option<Decoded>, m: seq<Byte>, done: seq<Label>, j: nat, jumps: nat, nameEnd: int)
    requires Completes(whole, m, done, j, jumps, nameEnd) && -1 <= nameEnd
    ensures j >= |m| ==> whole.None?
    ensures j < |m| && m[j] == 0 ==>
      whole.Some? && whole.value == Decoded(done, if nameEnd < 0 then j + 1 else nameEnd)
  {
  }

  lemma FollowPointer(whole: Option<Decoded>, m: seq<Byte>, done: seq<Label>, j: nat, jumps: nat, nameEnd: int)
    requires Completes(whole, m, done, j, jumps, nameEnd)
    requires j < |m| && m[j] >= 64
    ensures whole.Some? ==> j + 1 < |m| && jumps > 0 && PointerTarget(m, j) < |m|
    ensures j + 1 < |m| && jumps > 0 && PointerTarget(m, j) < |m| ==>
      Completes(whole, m, done, PointerTarget(m, j), jumps - 1, if nameEnd < 0 then j + 2 else nameEnd)
  {
  }

  // memcpy(out + at, packet + from, n): bytes past the end of the packet's buffer are unknown.
  method CopyOut(packet: seq<Byte>, from: nat, n: nat, out: array<Byte>, at: nat)
    requires at + n <= out.Length
    modifies out
    ensures forall i :: 0 <= i < out.Length && !(at <= i < at + n) ==> out[i] == old(out[i])
    ensures from + n <= |packet| ==> out[at..at + n] == packet[from..from + n]
  {
    var k := 0;
    while k < n
      invariant 0 <= k <= n
      invariant forall i :: at <= i < at + k && from + (i - at) < |packet| ==> out[i] == packet[from + (i - at)]
      invariant forall i :: 0 <= i < out.Length && !(at <= i < at + k) ==> out[i] == old(out[i])
    {
      if from + k < |packet| {
        out[at + k] := packet[from + k];
      } else {
        var unknown: Byte := *;
        out[at + k] := unknown;
      }
      k := k + 1;
    }
  }

  // The text of the labels read so far stands at the front of the output.
  ghost predicate Spelled(out: seq<Byte>, cp: int, done: seq<Label>) {
    && 0 <= cp <= |out|
    && out[..cp] == Join(done)
    && (done == [] <==> cp == 0)
  }

  // Appends a label to the output, after a dot unless it is the first; there must be room for a NUL.
  method AppendLabel(packet: seq<Byte>, from: nat, n: nat, out: array<Byte>, outLen: nat, cp: nat, ghost done: seq<Label>)
    returns (ok: bool, cp': nat, ghost copied: Label)
    requires outLen <= out.Length && 0 < n
    requires Spelled(out[..], cp, done) && (cp == 0 || cp < outLen)
    modifies out
    ensures ok <==> |Join(done + [seq(n, _ => 0 as Byte)])| < outLen
    ensures ok ==> |copied| == n && Spelled(out[..], cp', done + [copied]) && cp' < outLen
    ensures ok && from + n <= |packet| ==> copied == packet[from..from + n]
    ensures out[outLen..] == old(out[outLen..])
  {
    JoinAppend(done, seq(n, _ => 0 as Byte));
    cp' := cp;
    if cp' != 0 {
      if cp' + 1 >= outLen {
        return false, cp', [];
      }
      out[cp'] := DOT;
      cp' := cp' + 1;
    }
    ghost var soFar := if done == [] then [] else Join(done) + [DOT];
    assert out[..cp'] == soFar;
    if cp' + n >= outLen {
      return false, cp', [];
    }
    CopyOut(packet, from, n, out, cp');
    copied := out[cp'..cp' + n];
    assert out[..cp' + n] == soFar + copied;
    JoinAppend(done, copied);
    ok, cp' := true, cp' + n;
  }

  lemma SpelledText(out: seq<Byte>, cp: int, done: seq<Label>)
    requires Spelled(out, cp, done)
    ensures 0 <= cp == |Join(done)| <= |out| && out[..cp] == Join(done)
  {
  }

  // A length byte with one of its two high bits set, at j - 1, is the first byte of a pointer.
  method Jump(packet: seq<Byte>, length: nat, labelLen: Byte, j: nat, ptrCount: nat, nameEnd: int,
              ghost whole: Option<Decoded>, ghost done: seq<Label>)
    returns (ok: bool, j': int, nameEnd': int)
    requires 0 < j <= length <= |packet| && packet[j - 1] == labelLen >= 64 && ptrCount <= length && -1 <= nameEnd
    requires Completes(whole, packet[..length], done, j - 1, length - ptrCount, nameEnd)
    ensures !ok ==> whole.None?
    ensures ok ==> ptrCount < length && 0 <= j' && -1 <= nameEnd'
    ensures ok ==> Completes(whole, packet[..length], done, j', length - (ptrCount + 1), nameEnd')
  {
    hide Completes;
    FollowPointer(whole, packet[..length], done, j - 1, length - ptrCount, nameEnd);
    ok, j', nameEnd' := false, j, nameEnd;
    if j >= length {
      return;
    }
    var ptrLow := packet[j];
    j' := j + 1;
    if nameEnd < 0 {
      nameEnd' := j';
    }
    j' := (labelLen as int % 64) * 256 + ptrLow as int;
    if j' >= length || ptrCount + 1 > length {
      return;
    }
    ok := true;
  }

  // Reads the name at packet[idx..], a packet of `length` bytes in a buffer that may be larger.
  // A label's bytes are copied before the next length byte is checked, so a copy may run past the packet.
  // (label_len & 0xc0) is nonzero exactly when label_len >= 64, which leaves nothing to the later test
  // for a label over 63 bytes.
  method NameParse(packet: seq<Byte>, length: nat, idx: nat, nameOut: array<Byte>, nameOutLen: nat)
    returns (r: int, next: nat)
    requires length <= |packet| && nameOutLen <= nameOut.Length
    modifies nameOut
    ensures r == 0 || r == -1
    ensures r == 0 <==> NameAt(packet[..length], idx).Some? && |Text(packet[..length], idx)| < nameOutLen
    ensures r == 0 ==> next == NameAt(packet[..length], idx).value.next && idx < next <= length
    ensures r == 0 ==>
      var text := Text(packet[..length], idx);
      nameOut[..|text|] == text && nameOut[|text|] == 0
    ensures r != 0 ==> next == idx
    ensures nameOut[nameOutLen..] == old(nameOut[nameOutLen..])
  {
    hide Completes, Decode, Join, Spelled;
    ghost var m := packet[..length];
    ghost var whole := NameAt(m, idx);
    ghost var done: seq<Label> := [];
    if whole.Some? {
      DecodeBounds(m, idx, length);
    }
    NothingRead(m, idx);
    var nameEnd := -1;
    var j: int := idx;
    var ptrCount := 0;
    var cp := 0;
    while true
      invariant 0 <= ptrCount <= length && 0 <= j && -1 <= nameEnd && 0 <= cp
      invariant Completes(whole, m, done, j, length - ptrCount, nameEnd)
      invariant Spelled(nameOut[..], cp, done) && (cp == 0 || cp < nameOutLen)
      invariant nameOut[nameOutLen..] == old(nameOut[nameOutLen..])
      decreases length - ptrCount, length + 64 - j
    {
      StopsHere(whole, m, done, j, length - ptrCount, nameEnd);
      if j >= length {
        return -1, idx;
      }
      var labelLen := packet[j];
      j := j + 1;
      if labelLen == 0 {
        break;
      }
      if labelLen >= 64 {
        var ok;
        ok, j, nameEnd := Jump(packet, length, labelLen, j, ptrCount, nameEnd, whole, done);
        if !ok {
          return -1, idx;
        }
        ptrCount := ptrCount + 1;
        continue;
      }
      LabelFits(whole, m, done, j - 1, length - ptrCount, nameEnd, seq(labelLen as int, _ => 0 as Byte));
      SpelledText(nameOut[..], cp, done);
      var ok;
      ghost var copied;
      ok, cp, copied := AppendLabel(packet, j, labelLen as int, nameOut, nameOutLen, cp, done);
      if !ok {
        return -1, idx;
      }
      assert j + labelLen as int <= length ==> m[j..j + labelLen as int] == packet[j..j + labelLen as int];
      ReadLabel(whole, m, done, j - 1, length - ptrCount, nameEnd, copied);
      done := done + [copied];
      j := j + labelLen as int;
    }
    if cp >= nameOutLen {
      return -1, idx;
    }
    SpelledText(nameOut[..], cp, done);
    nameOut[cp] := 0;
    r := 0;
    next := if nameEnd < 0 then j else nameEnd;
  }
}
