// Names written one after another through one label table, with other bytes between them.
module NameSeries {
  import opened Bytes
  import opened Names
  import opened NameWriter
  import opened Messages

  // Some bytes, and the name that comes after them.
  datatype Item = Item(gap: seq<Byte>, name: seq<Byte>)

  // The message and the table when all of it is written.
  datatype Page = Page(bytes: seq<Byte>, table: seq<Entry>)

  function WriteOne(p: Page, it: Item, bufLen: nat, oom: set<nat>): Option<Page> {
    var w := EncodeName(it.name, |p.bytes| + |it.gap|, bufLen, p.table, true, oom);
    if w.Written? then Some(Page(p.bytes + it.gap + w.bytes, w.table)) else None
  }

  function WriteAll(p: Page, items: seq<Item>, bufLen: nat, oom: set<nat>): Option<Page>
    decreases |items|
  {
    if items == [] then Some(p)
    else
      match WriteOne(p, items[0], bufLen, oom)
      case None => None
      case Some(q) => WriteAll(q, items[1..], bufLen, oom)
  }

  // In message m every one of the items reads back where it was written, and a name without empty labels as the
  // very text that was given.
  ghost predicate AllRead(m: seq<Byte>, p: Page, items: seq<Item>, bufLen: nat, oom: set<nat>)
    decreases |items|
  {
    items == [] ||
    (&& WriteOne(p, items[0], bufLen, oom).Some?
     && var q, at := WriteOne(p, items[0], bufLen, oom).value, |p.bytes| + |items[0].gap|;
     && NameFrom(m, at, items[0].name, |q.bytes|)
     && (Dotted(items[0].name) ==> Text(m, at) == items[0].name)
     && AllRead(m, q, items[1..], bufLen, oom))
  }

  lemma OneReadsBack(p: Page, it: Item, bufLen: nat, oom: set<nat>, tail: seq<Byte>)
    requires bufLen <= 0x4000 && TableValid(p.bytes, p.table) && WriteOne(p, it, bufLen, oom).Some?
    ensures var q := WriteOne(p, it, bufLen, oom).value;
      && TableValid(q.bytes, q.table)
      && NameFrom(q.bytes + tail, |p.bytes| + |it.gap|, it.name, |q.bytes|)
  {
    hide Encode, TableValid, Usable;
    var m := p.bytes + it.gap;
    TableValidLonger(p.bytes, it.gap, p.table);
    UsableIfValid(m, p.table, it.name);
    EncodeThenDecode(m, it.name, bufLen, p.table, true, oom);
    var w := EncodeName(it.name, |m|, bufLen, p.table, true, oom);
    TableGrown(m, w.bytes, p.table, w.table);
    NameFromLonger(m + w.bytes, tail, |m|, it.name, |m| + |w.bytes|);
  }

  // Whatever comes between them, as many names as the buffer holds read back from where they start.
  lemma {:induction false} AllNamesReadBack(p: Page, items: seq<Item>, bufLen: nat, oom: set<nat>) returns (tail: seq<Byte>)
    requires bufLen <= 0x4000 && TableValid(p.bytes, p.table) && WriteAll(p, items, bufLen, oom).Some?
    ensures var q := WriteAll(p, items, bufLen, oom).value;
      && q.bytes == p.bytes + tail && TableValid(q.bytes, q.table)
      && AllRead(q.bytes, p, items, bufLen, oom)
    decreases |items|
  {
    hide WriteOne, TableValid, NameFrom, Text, Dotted;
    if items == [] {
      tail := [];
      assert p.bytes + [] == p.bytes;
    } else {
      var q := WriteOne(p, items[0], bufLen, oom).value;
      OneReadsBack(p, items[0], bufLen, oom, []);
      var more := AllNamesReadBack(q, items[1..], bufLen, oom);
      OneReadsBack(p, items[0], bufLen, oom, more);
      TextReadsBack(q.bytes + more, |p.bytes| + |items[0].gap|, items[0].name, |q.bytes|);
      tail := Written(p, items[0], bufLen, oom) + more;
      Associate(p.bytes, Written(p, items[0], bufLen, oom), more);
      OnePage(p, items[0], bufLen, oom);
    }
  }

  // The bytes that one item adds.
  function Written(p: Page, it: Item, bufLen: nat, oom: set<nat>): seq<Byte>
    requires WriteOne(p, it, bufLen, oom).Some?
  {
    it.gap + EncodeName(it.name, |p.bytes| + |it.gap|, bufLen, p.table, true, oom).bytes
  }

  lemma OnePage(p: Page, it: Item, bufLen: nat, oom: set<nat>)
    requires WriteOne(p, it, bufLen, oom).Some?
    ensures WriteOne(p, it, bufLen, oom).value.bytes == p.bytes + Written(p, it, bufLen, oom)
  {
    Associate(p.bytes, it.gap, EncodeName(it.name, |p.bytes| + |it.gap|, bufLen, p.table, true, oom).bytes);
  }

  lemma TextReadsBack(m: seq<Byte>, at: nat, name: seq<Byte>, next: nat)
    requires NameFrom(m, at, name, next)
    ensures Dotted(name) ==> Text(m, at) == name
  {
    TextIsName(name);
  }
}
