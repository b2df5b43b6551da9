// The epoll backend: a table of events by descriptor, and what the kernel has been told.
module EpollBackend {
  import opened Bytes
  import opened Events
  import opened Watches

  // What the kernel is asked of a descriptor that it knows.
  datatype Mask = Mask(input: bool, output: bool)

  datatype Op = CtlAdd | CtlMod | CtlDel

  // epoll_ctl: a descriptor can be added when it is not known, and changed or removed when it is.
  function Legal(kernel: map<int, Mask>, op: Op, fd: int): bool {
    op.CtlAdd? <==> fd !in kernel
  }

  function Ctl(kernel: map<int, Mask>, op: Op, fd: int, m: Mask): map<int, Mask> {
    if op.CtlDel? then kernel - {fd} else kernel[fd := m]
  }

  function MaskOf(w: Watch): Mask {
    Mask(w.reader.Some?, w.writer.Some?)
  }

  // struct epollop. The slots hold a reader and a writer each; `kernel` is the kernel's side.
  class EpollOp {
    var fds: seq<Watch>
    var nfds: nat
    ghost var kernel: map<int, Mask>

    // The kernel knows just the descriptors that somebody watches, and is asked for just what they wait for.
    ghost predicate Mirrored()
      reads this
    {
      MirroredBy(fds, kernel)
    }

    ghost predicate Valid()
      reads this
    {
      nfds == |fds| && 0 < nfds && Mirrored()
    }

    ghost function View(): (v: View)
      reads this
      ensures Total(v)
    {
      ViewOf(fds)
    }

    // epoll_init
    constructor ()
      ensures Valid() && forall fd: int :: View()[fd] == NOBODY
    {
      fds, nfds, kernel := seq(32, _ => NOBODY), 32, map[];
    }

    // epoll_recalc
    method Recalc(max: nat, memory: bool) returns (r: int)
      requires Valid()
      modifies this`fds, this`nfds
      ensures Valid() && View() == old(View())
      ensures r == if max >= old(nfds) && !memory then -1 else 0
      ensures r == 0 ==> max < nfds
    {
      if max >= nfds {
        var n := nfds;
        while n <= max
          invariant nfds <= n && 0 < n
        {
          n := n * 2;
        }
        if !memory {
          return -1;
        }
        fds := fds + seq(n - nfds, _ => NOBODY);
        nfds := n;
        assert View() == old(View());
      }
      return 0;
    }

    // epoll_add: the call of epoll_ctl is always one that the kernel can take, though it may lack the room.
    method Add(e: Watcher, memory: bool, room: bool) returns (r: int)
      requires Valid() && Watchable(e)
      modifies this
      ensures Valid()
      ensures r == if (e.fd >= old(nfds) && !memory) || !room then -1 else 0
      ensures View() == if r == 0 then Adding(old(View()), e) else old(View())
    {
      hide ViewOf, MirroredBy;
      var fd := e.fd;
      if fd >= nfds {
        r := Recalc(fd, memory);
        if r == -1 {
          return;
        }
      }
      ghost var v := View();
      var op, w := CtlAdd, fds[fd];
      if w.reader != None {
        op := CtlMod;
      }
      if w.writer != None {
        op := CtlMod;
      }
      var mask := Mask(w.reader.Some? || e.wantsRead, w.writer.Some? || e.wantsWrite);
      KernelKnows(fd);
      assert Legal(kernel, op, fd) && mask == MaskOf(w.With(e));
      if !room {
        return -1;
      }
      SlotChanges(v, op, fd, w.With(e));
      kernel := Ctl(kernel, op, fd, mask);
      fds := fds[fd := w.With(e)];
      return 0;
    }

    // epoll_del: the call of epoll_ctl is one that the kernel can take unless nobody watches the descriptor, but `took`
    // says whether it does. The slots are cleared all the same, so they and the kernel then differ if the event was there.
    method Del(e: Watcher, took: bool) returns (r: int)
      requires Valid() && Watchable(e)
      modifies this`fds, this`kernel
      ensures View() == Removing(old(View()), e) && nfds == |fds|
      ensures r == if e.fd < nfds && (old(View())[e.fd] == NOBODY || !took) then -1 else 0
      ensures r == -1 ==> kernel == old(kernel)
      ensures (Valid() <==> r == 0 || View() == old(View())) && (took ==> Valid())
    {
      hide ViewOf, MirroredBy;
      var fd := e.fd;
      ghost var v := View();
      Slot(fd);
      if fd >= nfds {
        assert v == Removing(v, e);
        return 0;
      }
      var w := fds[fd];
      var op, mask := CtlDel, Mask(e.wantsRead, e.wantsWrite);
      var needReadDelete, needWriteDelete := true, true;
      if !(e.wantsRead && e.wantsWrite) {
        if e.wantsRead && w.writer != None {
          needWriteDelete, op, mask := false, CtlMod, Mask(false, true);
        } else if e.wantsWrite && w.reader != None {
          needReadDelete, op, mask := false, CtlMod, Mask(true, false);
        }
      }
      var w' := Watch(if needReadDelete then None else w.reader, if needWriteDelete then None else w.writer);
      assert w' == w.Without(e);
      KernelKnows(fd);
      if w == NOBODY {
        assert !Legal(kernel, op, fd);
        assert fds[fd := w'] == fds && v == Removing(v, e);
        return -1;
      }
      assert Legal(kernel, op, fd);
      SlotChanges(v, op, fd, w');
      if !took {
        SlotAlone(fd, w');
        fds := fds[fd := w'];
        return -1;
      }
      fds := fds[fd := w'];
      kernel := Ctl(kernel, op, fd, mask);
      return 0;
    }

    lemma KernelKnows(fd: int)
      requires Valid() && 0 <= fd < nfds
      ensures fd in kernel <==> fds[fd] != NOBODY
      ensures View()[fd] == fds[fd]
    {
    }

    lemma Slot(fd: nat)
      ensures View()[fd] == if fd < |fds| then fds[fd] else NOBODY
    {
    }

    // A slot that loses an event without the kernel knowing.
    lemma SlotAlone(fd: nat, w: Watch)
      requires Valid() && fd < nfds && (w.reader == None || w.reader == fds[fd].reader) && (w.writer == None || w.writer == fds[fd].writer)
      ensures MirroredBy(fds[fd := w], kernel) <==> ViewOf(fds[fd := w]) == View()
    {
      if w != fds[fd] {
        assert View()[fd] != ViewOf(fds[fd := w])[fd];
        assert MaskOf(w) != MaskOf(fds[fd]);
        assert fd in kernel && kernel[fd] == MaskOf(fds[fd]);
        assert !MirroredBy(fds[fd := w], kernel) by {
          assert fds[fd := w][fd] == w;
        }
      } else {
        assert fds[fd := w] == fds;
      }
    }

    // A slot and the kernel change together.
    lemma SlotChanges(v: View, op: Op, fd: nat, w: Watch)
      requires Valid() && fd < nfds && v == View() && Legal(kernel, op, fd) && (op.CtlDel? <==> w == NOBODY)
      ensures ViewOf(fds[fd := w]) == v[fd := w] && MirroredBy(fds[fd := w], Ctl(kernel, op, fd, MaskOf(w)))
    {
    }

    // The loop of epoll_dispatch over what epoll_wait reports, in any order: every event of a reported descriptor
    // gets the result it is due.
    method Dispatch(ready: map<int, Ready>, reported: seq<int>) returns (calls: seq<Call>)
      requires Valid() && Sound(View()) && forall i, j :: 0 <= i < j < |reported| ==> reported[i] != reported[j]
      ensures forall e: Watcher :: Marks(calls, e) == if e.fd in reported then Due(View()[e.fd], e, Of(ready, e.fd)) else {}
    {
      hide ViewOf, MirroredBy;
      calls := [];
      ghost var v := View();
      for i := 0 to |reported|
        invariant Told(calls, v, ready, First(reported, i))
      {
        var fd := reported[i];
        FirstOneMore(reported, i);
        ghost var before := calls;
        if 0 <= fd < nfds {
          Slot(fd);
          calls := TellBoth(fds[fd], Of(ready, fd), calls);
        } else {
          NobodyThere(fd);
        }
        ToldOneMore(before, calls, v, ready, First(reported, i), fd);
      }
      FirstMembers(reported, |reported|);
      assert reported[..|reported|] == reported;
    }

    lemma NobodyThere(fd: int)
      requires Valid() && !(0 <= fd < nfds)
      ensures View()[fd] == NOBODY
    {
    }
  }

  ghost function ViewOf(fds: seq<Watch>): (v: View)
    ensures Total(v)
  {
    imap fd: int :: if 0 <= fd < |fds| then fds[fd] else NOBODY
  }

  ghost predicate MirroredBy(fds: seq<Watch>, kernel: map<int, Mask>) {
    && (forall fd :: fd in kernel ==> 0 <= fd < |fds|)
    && forall fd :: 0 <= fd < |fds| ==>
      && (fd in kernel <==> fds[fd] != NOBODY) && (fd in kernel ==> kernel[fd] == MaskOf(fds[fd]))
  }

  // What epoll_dispatch does for one descriptor: its reader and its writer are activated, each for its part.
  method TellBoth(w: Watch, r: Ready, calls: seq<Call>) returns (more: seq<Call>)
    ensures forall e: Watcher :: Marks(more, e) == Marks(calls, e) + Due(w, e, r)
  {
    var reader, writer := None, None;
    if r.gone {
      reader, writer := w.reader, w.writer;
    } else {
      if r.input {
        reader := w.reader;
      }
      if r.output {
        writer := w.writer;
      }
    }
    more := calls;
    if reader != None {
      MarksAppends(more, Call(reader.value, {ByRead}));
      more := more + [Call(reader.value, {ByRead})];
    }
    if writer != None {
      MarksAppends(more, Call(writer.value, {ByWrite}));
      more := more + [Call(writer.value, {ByWrite})];
    }
  }

  ghost function First(fds: seq<int>, n: nat): iset<int>
    requires n <= |fds|
  {
    if n == 0 then iset{} else First(fds, n - 1) + iset{fds[n - 1]}
  }

  lemma {:induction false} FirstMembers(fds: seq<int>, n: nat)
    requires n <= |fds|
    ensures forall fd: int :: fd in First(fds, n) <==> fd in fds[..n]
  {
    if n > 0 {
      FirstMembers(fds, n - 1);
      assert fds[..n] == fds[..n - 1] + [fds[n - 1]];
    }
  }

  lemma FirstOneMore(fds: seq<int>, n: nat)
    requires n < |fds| && forall i, j :: 0 <= i < j < |fds| ==> fds[i] != fds[j]
    ensures fds[n] !in First(fds, n)
  {
    FirstMembers(fds, n);
  }
}
