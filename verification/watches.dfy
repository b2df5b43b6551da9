// What an I/O backend is for: which event hears of which descriptor, and who is told when descriptors are ready.
module Watches {
  import opened Bytes
  import opened Events

  // An event as a backend sees it: which one it is, and what is reached through it and does not change.
  datatype Watcher = Watcher(id: nat, fd: int, wantsRead: bool, wantsWrite: bool)

  // The events that wait to read and to write on one descriptor.
  datatype Watch = Watch(reader: Option<Watcher>, writer: Option<Watcher>) {
    function With(e: Watcher): Watch {
      Watch(if e.wantsRead then Some(e) else reader, if e.wantsWrite then Some(e) else writer)
    }

    function Without(e: Watcher): Watch {
      Watch(if e.wantsRead then None else reader, if e.wantsWrite then None else writer)
    }
  }

  const NOBODY: Watch := Watch(None, None)

  // Every descriptor has a watch, most of them nobody's.
  type View = imap<int, Watch>

  ghost predicate Total(v: View) {
    forall fd: int :: fd in v
  }

  // An event that a backend is given to watch: it waits for I/O on a descriptor.
  predicate Watchable(e: Watcher) {
    e.fd >= 0 && (e.wantsRead || e.wantsWrite)
  }

  ghost function Adding(v: View, e: Watcher): View
    requires Total(v)
  {
    v[e.fd := v[e.fd].With(e)]
  }

  ghost function Removing(v: View, e: Watcher): View
    requires Total(v)
  {
    v[e.fd := v[e.fd].Without(e)]
  }

  // Each event is watched on its own descriptor, for all it wants and nothing else.
  ghost predicate Sound(v: View) {
    Total(v) && forall fd: int :: SoundWatch(fd, v[fd])
  }

  ghost predicate SoundWatch(fd: int, w: Watch) {
    && (w.reader.Some? ==>
          var e := w.reader.value; e.fd == fd && e.wantsRead && (e.wantsWrite ==> w.writer == w.reader))
    && (w.writer.Some? ==>
          var e := w.writer.value; e.fd == fd && e.wantsWrite && (e.wantsRead ==> w.reader == w.writer))
  }

  // At most one event for a descriptor and direction: what is added finds its place free, what is removed is there.
  ghost predicate Free(w: Watch, e: Watcher) {
    (e.wantsRead ==> w.reader.None?) && (e.wantsWrite ==> w.writer.None?)
  }

  ghost predicate Held(w: Watch, e: Watcher) {
    (e.wantsRead ==> w.reader == Some(e)) && (e.wantsWrite ==> w.writer == Some(e))
  }

  lemma AddingStaysSound(v: View, e: Watcher)
    requires Sound(v) && Free(v[e.fd], e)
    ensures Sound(Adding(v, e))
  {
  }

  lemma RemovingStaysSound(v: View, e: Watcher)
    requires Sound(v) && Held(v[e.fd], e)
    ensures Sound(Removing(v, e))
  {
  }

  // Removing an event undoes adding it, and is undone by adding it again.
  lemma AddThenRemove(v: View, e: Watcher)
    requires Total(v)
    ensures Free(v[e.fd], e) ==> Removing(Adding(v, e), e) == v
    ensures Held(v[e.fd], e) ==> Adding(Removing(v, e), e) == v
  {
  }

  // ---------- Readiness ----------

  // What the kernel says of a descriptor; `gone` stands for an error or a hang-up.
  datatype Ready = Ready(input: bool, output: bool, gone: bool)

  const IDLE: Ready := Ready(false, false, false)

  // The result an event is due, when its descriptor is ready like this.
  function Due(w: Watch, e: Watcher, r: Ready): set<Cause> {
    (if w.reader == Some(e) && (r.input || r.gone) then {ByRead} else {})
    + if w.writer == Some(e) && (r.output || r.gone) then {ByWrite} else {}
  }

  // One call of event_active.
  datatype Call = Call(event: Watcher, why: set<Cause>)

  // What some calls of event_active have added to the result of e.
  function Marks(calls: seq<Call>, e: Watcher): set<Cause> {
    if calls == [] then {}
    else Marks(calls[..|calls| - 1], e) + if calls[|calls| - 1].event == e then calls[|calls| - 1].why else {}
  }

  lemma MarksAppend(calls: seq<Call>, c: Call, e: Watcher)
    ensures Marks(calls + [c], e) == Marks(calls, e) + if c.event == e then c.why else {}
  {
    assert (calls + [c])[..|calls|] == calls;
  }

  // Readiness by descriptor; those not mentioned are idle.
  function Of(ready: map<int, Ready>, fd: int): Ready {
    if fd in ready then ready[fd] else IDLE
  }

  function Wants(e: Watcher): set<Cause> {
    (if e.wantsRead then {ByRead} else {}) + if e.wantsWrite then {ByWrite} else {}
  }

  // What poll_dispatch and select_dispatch do for one descriptor: each of its events is activated once, with the
  // part of the result that it wants.
  method Tell(w: Watch, r: Ready, calls: seq<Call>, ghost fd: int) returns (more: seq<Call>)
    requires SoundWatch(fd, w)
    ensures forall e: Watcher :: Marks(more, e) == Marks(calls, e) + Due(w, e, r)
  {
    var res: set<Cause>, reader, writer := {}, None, None;
    more := calls;
    if r.input || r.gone {
      res, reader := res + {ByRead}, w.reader;
    }
    if r.output || r.gone {
      res, writer := res + {ByWrite}, w.writer;
    }
    if reader.Some? && res * Wants(reader.value) != {} {
      MarksAppends(more, Call(reader.value, res * Wants(reader.value)));
      more := more + [Call(reader.value, res * Wants(reader.value))];
    }
    if writer.Some? && writer != reader && res * Wants(writer.value) != {} {
      MarksAppends(more, Call(writer.value, res * Wants(writer.value)));
      more := more + [Call(writer.value, res * Wants(writer.value))];
    }
  }

  lemma MarksAppends(calls: seq<Call>, c: Call)
    ensures forall e: Watcher :: Marks(calls + [c], e) == Marks(calls, e) + if c.event == e then c.why else {}
  {
    forall e: Watcher
      ensures Marks(calls + [c], e) == Marks(calls, e) + if c.event == e then c.why else {}
    {
      MarksAppend(calls, c, e);
    }
  }

  // ---------- Scanning from a random start ----------

  // When a scan of n places that starts after place `start` comes to place x.
  function Turn(start: nat, n: nat, x: nat): nat
    requires start < n && x < n
  {
    if x > start then x - start - 1 else x + n - start - 1
  }

  // The marks after j turns: those of the descriptors that had theirs.
  ghost predicate Told(calls: seq<Call>, v: View, ready: map<int, Ready>, done: iset<int>) {
    forall e: Watcher :: Total(v) ==> Marks(calls, e) == if e.fd in done then Due(v[e.fd], e, Of(ready, e.fd)) else {}
  }

  lemma ToldOneMore(calls: seq<Call>, more: seq<Call>, v: View, ready: map<int, Ready>, done: iset<int>, fd: int)
    requires Sound(v) && Told(calls, v, ready, done) && fd !in done
    requires forall e: Watcher :: Marks(more, e) == Marks(calls, e) + Due(v[fd], e, Of(ready, fd))
    ensures Told(more, v, ready, done + iset{fd})
  {
    forall e: Watcher
      ensures Marks(more, e) == if e.fd in done + iset{fd} then Due(v[e.fd], e, Of(ready, e.fd)) else {}
    {
      assert SoundWatch(fd, v[fd]);
      assert e.fd != fd ==> Due(v[fd], e, Of(ready, fd)) == {};
      assert Marks(more, e) == Marks(calls, e) + Due(v[fd], e, Of(ready, fd));
    }
  }
}
