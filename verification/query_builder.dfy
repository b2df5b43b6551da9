// Building a query in the buffer of a request.
module QueryBuilder {
  import opened Bytes
  import opened Names
  import opened NameWriter
  import opened Messages

  // APPEND16
  method Append16(buf: array<Byte>, bufLen: nat, j: nat, x: nat) returns (ok: bool)
    requires bufLen <= buf.Length
    modifies buf
    ensures ok == (j + 2 <= bufLen)
    ensures ok ==> buf[..j + 2] == old(buf[..j]) + U16(x)
    ensures ok ==> forall i :: j + 2 <= i < buf.Length ==> buf[i] == old(buf[i])
    ensures !ok ==> buf[..] == old(buf[..])
  {
    if j + 2 > bufLen {
      return false;
    }
    ghost var before := buf[..j];
    buf[j], buf[j + 1] := U16(x)[0], U16(x)[1];
    assert buf[..j + 2] == before + U16(x);
    return true;
  }

  method AppendHeader(buf: array<Byte>, bufLen: nat, transId: nat)
    requires 12 <= bufLen <= buf.Length
    modifies buf
    ensures buf[..12] == RequestHeader(transId)
    ensures forall i :: 12 <= i < buf.Length ==> buf[i] == old(buf[i])
  {
    hide U16;
    assert buf[..0] == [];
    var ok := Append16(buf, bufLen, 0, transId);
    ok := Append16(buf, bufLen, 2, 0x0100);
    ok := Append16(buf, bufLen, 4, 1);
    ok := Append16(buf, bufLen, 6, 0);
    ok := Append16(buf, bufLen, 8, 0);
    ok := Append16(buf, bufLen, 10, 0);
    assert [] + U16(transId) == U16(transId);
  }

  // evdns_request_data_build, into as many bytes as evdns_request_len asks for.
  method RequestDataBuild(name: seq<Byte>, transId: nat, qtype: nat, buf: array<Byte>) returns (r: int)
    requires NoNul(name) && buf.Length == RequestLen(|name|)
    modifies buf
    ensures var q := Request(name, transId, qtype);
      if q.Some? then r == |q.value| <= buf.Length && buf[..r] == q.value else r == -1 || r == -2
  {
    hide Encode, U16, RequestHeader;
    var bufLen := RequestLen(|name|);
    AppendHeader(buf, bufLen, transId);
    ghost var head, w := buf[..], EncodeName(name, 12, bufLen, [], false, {});
    CodesOf(name);
    r := DnsnameToLabels(buf, bufLen, 12, name, null, {});
    if r < 0 {
      return;
    }
    QueryFits(name);
    assert buf[..r] == head[..12] + w.bytes;
    var ok := Append16(buf, bufLen, r, qtype);
    ok := Append16(buf, bufLen, r + 2, CLASS_INET);
    r := r + 4;
  }

  lemma CodesOf(name: seq<Byte>)
    ensures var w := EncodeName(name, 12, RequestLen(|name|), [], false, {}); w.Failed? ==> w.code == -1 || w.code == -2
  {
    CodesAre(name, 12, RequestLen(|name|));
  }

  lemma {:induction false} CodesAre(name: seq<Byte>, j: nat, bufLen: nat)
    ensures var w := Encode(name, j, bufLen, [], false, {}); w.Failed? ==> w.code == -1 || w.code == -2
    decreases |name|
  {
    if IndexOfDot(name) != -1 {
      CodesAre(Rest(name), j + 1 + |FirstLabel(name)|, bufLen);
    }
  }

  lemma QueryFits(name: seq<Byte>)
    requires EncodeName(name, 12, RequestLen(|name|), [], false, {}).Written?
    ensures 12 + |EncodeName(name, 12, RequestLen(|name|), [], false, {}).bytes| <= 14 + |name|
  {
    PlainNeedsShortLabels(name, 12, RequestLen(|name|), [], {});
    EncodeFits(name, 12, RequestLen(|name|), [], false, {});
  }
}
