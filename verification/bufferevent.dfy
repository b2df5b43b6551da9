// The buffered event of evbuffer.c: when it reads, when it holds back, and when it writes.
module BufferEvents {
  import opened Bytes
  import opened Buffers

  // What a read or a write of the descriptor comes to. `Again` stands for EAGAIN and its like.
  datatype Outcome<T> = Again | Broken | Nothing | Moved(value: T)

  const INT_MAX := 0x7fff_ffff

  // A difference of two sizes, stored in an int.
  function AsInt(x: int): (r: int)
    ensures -INT_MAX - 1 <= r <= INT_MAX && r % 0x1_0000_0000 == x % 0x1_0000_0000
  {
    var m := x % 0x1_0000_0000;
    if m <= INT_MAX then m else m - 0x1_0000_0000
  }

  // Whether the code takes the mark for reached.
  predicate TakenForFull(high: nat, len: nat) {
    high != 0 && AsInt(high - len) <= 0
  }

  // A reader whose input is below the mark is stopped if and only if the distance to the mark, in 32 bits, is zero
  // or has its top bit set; with a mark that fits an int, never.
  lemma StoppedBelowMark(high: nat, len: nat)
    requires len < high
    ensures TakenForFull(high, len) <==> !(1 <= (high - len) % 0x1_0000_0000 <= INT_MAX)
    ensures high <= INT_MAX ==> !TakenForFull(high, len)
  {
  }

  // A reader whose input has reached the mark is stopped unless there is more than 2^31 bytes too much.
  lemma StoppedAtMark(high: nat, len: nat)
    requires 0 < high <= len <= high + INT_MAX + 1
    ensures TakenForFull(high, len)
  {
  }

  // struct bufferevent. An event set for EV_READ or EV_WRITE without EV_PERSIST is no longer registered once its
  // callback runs. `readRefused` and `writeRefused` say that an event base call failed on the way of that event and
  // that no event_add on it has succeeded since.
  class BufferEvent {
    var lowRead: nat
    var highRead: nat
    var lowWrite: nat
    var enabledRead: bool
    var enabledWrite: bool
    var readRegistered: bool
    var writeRegistered: bool
    var pressure: bool
    var input: seq<Byte>
    var output: seq<Byte>
    ghost var readRefused: bool
    ghost var writeRefused: bool
    // The read event was added by a bufferevent_enable that failed after that.
    ghost var readAhead: bool
    ghost var readFailed: bool
    ghost var writeFailed: bool
    ghost var arrived: seq<Byte>
    ghost var taken: seq<Byte>
    ghost var accepted: seq<Byte>
    ghost var sent: seq<Byte>

    predicate AtMark()
      reads this`highRead, this`input
    {
      0 < highRead <= |input|
    }

    // No stall of the reader: enabled, it is registered, or waits for the input to fall below the mark it has reached.
    ghost predicate Flowing()
      reads this
    {
      enabledRead && !readFailed ==> readRegistered || (pressure && AtMark())
    }

    // No stall of the writer: enabled and with something to write, it is registered.
    ghost predicate Draining()
      reads this
    {
      enabledWrite && !writeFailed && output != [] ==> writeRegistered
    }

    // What holds of the reader at all times: a stall has a refused call behind it, or a mark taken for reached.
    ghost predicate Reads()
      reads this
    {
      !Flowing() ==> readRefused || (pressure && TakenForFull(highRead, |input|))
    }

    ghost predicate Writes()
      reads this
    {
      !Draining() ==> writeRefused
    }

    // No byte is lost, made up or out of order on either way.
    ghost predicate Conserves()
      reads this`arrived, this`taken, this`input, this`accepted, this`sent, this`output
    {
      arrived == taken + input && accepted == sent + output
    }

    // Nothing is registered that is not enabled, but for a read event added ahead.
    ghost predicate Registered()
      reads this
    {
      (readRegistered ==> enabledRead || readAhead) && (writeRegistered ==> enabledWrite)
    }

    ghost predicate Valid()
      reads this
    {
      Reads() && Writes() && Conserves() && Registered()
    }

    // bufferevent_new
    constructor ()
      ensures Valid() && Flowing() && Draining()
      ensures enabledWrite && !enabledRead && input == [] && output == [] && highRead == 0 && !readFailed && !writeFailed
      ensures !readRegistered && !writeRegistered && !pressure
    {
      lowRead, highRead, lowWrite := 0, 0, 0;
      enabledRead, enabledWrite, readRegistered, writeRegistered, pressure := false, true, false, false, false;
      input, output := [], [];
      readRefused, writeRefused, readAhead, readFailed, writeFailed := false, false, false, false, false;
      arrived, taken, accepted, sent := [], [], [], [];
    }

    // bufferevent_add on the read event.
    method AddRead(ok: bool)
      modifies this`readRegistered, this`readRefused
      ensures readRegistered == (ok || old(readRegistered)) && readRefused == !ok
    {
      readRegistered, readRefused := ok || readRegistered, !ok;
    }

    method AddWrite(ok: bool)
      modifies this`writeRegistered, this`writeRefused
      ensures writeRegistered == (ok || old(writeRegistered)) && writeRefused == !ok
    {
      writeRegistered, writeRefused := ok || writeRegistered, !ok;
    }

    // bufferevent_read_pressure_cb: once the input is below the mark, reading goes on.
    method Pressure(ok: bool)
      modifies this`pressure, this`readRegistered, this`readRefused
      ensures pressure == (old(pressure) && AtMark())
      ensures readRegistered == (old(readRegistered) || (!AtMark() && enabledRead && ok))
      ensures readRefused == if !AtMark() && enabledRead then !ok else old(readRefused)
    {
      if highRead == 0 || |input| < highRead {
        pressure := false;
        if enabledRead {
          AddRead(ok);
        }
      }
    }

    // bufferevent_readcb when the descriptor is readable. `outcome` is what evbuffer_read comes to, which asks for
    // no more than ReadLimit; `pressureOk` and `ok` are those of the event_add in the pressure callback and of its own.
    // `notify` says if the user's callback is due, with everything above settled.
    method OnReadable(waiting: Option<int>, totallen: nat, sizeMax: nat, outcome: Outcome<seq<Byte>>, pressureOk: bool, ok: bool)
      returns (notify: bool)
      requires Valid() && readRegistered
      requires var howmuch := if highRead == 0 then -1 else AsInt(highRead - |input|);
        outcome.Moved? ==> 0 < |outcome.value| <= ReadLimit(waiting, howmuch, totallen, sizeMax)
      modifies this`input, this`pressure, this`readRegistered, this`readRefused, this`readFailed, this`arrived
      ensures Valid()
      ensures var goesOn := !old(TakenForFull(highRead, |input|));
        && input == old(input) + (if outcome.Moved? && goesOn then outcome.value else [])
        && readFailed == (old(readFailed) || ((outcome.Broken? || outcome.Nothing?) && goesOn))
        && (notify <==> outcome.Moved? && goesOn && |input| >= lowRead)
        && (!goesOn ==> pressure && !readRegistered)
        && readRefused == (if goesOn && (outcome.Again? || outcome.Moved?) then !ok else old(readRefused))
        && (goesOn && outcome.Again? ==> readRegistered == ok && pressure == old(pressure))
        && (goesOn && outcome.Moved? ==>
             pressure == (AtMark() && (old(pressure) || notify)) &&
             readRegistered == (!(AtMark() && notify) && (ok || (old(pressure) && !AtMark() && enabledRead && pressureOk))))
      ensures 0 < highRead && old(|input|) <= highRead ==> |input| <= highRead
      // Reading goes on, if it was not to stop, unless the mark is taken for reached too early or no event_add succeeds.
      ensures Flowing() <==>
        || !enabledRead || readFailed
        || (if old(TakenForFull(highRead, |input|)) then AtMark()
            else ok || (pressure && AtMark()) || (outcome.Moved? && old(pressure) && !AtMark() && pressureOk))
    {
      hide ReadLimit, AsInt;
      readRegistered := false;
      if highRead != 0 && AsInt(highRead - |input|) <= 0 {
        pressure := true;
        return false;
      }
      match outcome
      case Again =>
        AddRead(ok);
        return false;
      case Broken =>
        readFailed := true;
        return false;
      case Nothing =>
        readFailed := true;
        return false;
      case Moved(bytes) =>
        RoomIsLess(highRead, |input|);
        notify := Received(bytes, pressureOk, ok);
    }

    // The rest of bufferevent_readcb once bytes have come in.
    method Received(bytes: seq<Byte>, pressureOk: bool, ok: bool) returns (notify: bool)
      requires Conserves() && Writes() && Registered() && (enabledRead || readAhead) && !readRegistered
      modifies this`input, this`pressure, this`readRegistered, this`readRefused, this`arrived
      ensures Valid() && input == old(input) + bytes && (notify <==> |input| >= lowRead)
      ensures pressure == (AtMark() && (old(pressure) || notify))
      ensures readRegistered == (!(AtMark() && notify) && (ok || (old(pressure) && !AtMark() && enabledRead && pressureOk)))
      ensures readRefused == !ok
    {
      hide TakenForFull;
      input, arrived := input + bytes, arrived + bytes;
      assert arrived == taken + input;
      if pressure {
        Pressure(pressureOk);
      }
      AddRead(ok);
      if lowRead != 0 && |input| < lowRead {
        return false;
      }
      if highRead != 0 && |input| >= highRead {
        readRegistered := false;
        pressure := true;
      }
      return true;
    }

    // Either callback when its timeout has passed instead: the error callback is called.
    method OnReadTimeout()
      requires Valid() && readRegistered
      modifies this`readRegistered, this`readFailed
      ensures Valid() && readFailed && !readRegistered
    {
      readRegistered, readFailed := false, true;
    }

    method OnWriteTimeout()
      requires Valid() && writeRegistered
      modifies this`writeRegistered, this`writeFailed
      ensures Valid() && writeFailed && !writeRegistered
    {
      writeRegistered, writeFailed := false, true;
    }

    // bufferevent_writecb when the descriptor is writable; `outcome` tells how much of the output write takes.
    method OnWritable(outcome: Outcome<nat>, ok: bool) returns (notify: bool)
      requires Valid() && writeRegistered
      requires outcome.Moved? ==> 0 < outcome.value <= |output| || output == []
      modifies this`output, this`writeRegistered, this`writeRefused, this`writeFailed, this`sent
      ensures Valid()
      ensures output == if outcome.Moved? && old(output) != [] then old(output)[outcome.value..] else old(output)
      ensures notify <==> (outcome.Moved? || old(output) == []) && |output| <= lowWrite
      ensures writeFailed == (old(writeFailed) || (old(output) != [] && (outcome.Broken? || outcome.Nothing?)))
      ensures writeRegistered == (output != [] && (outcome.Again? || outcome.Moved?) && ok)
      ensures writeRefused == if output != [] && (outcome.Again? || outcome.Moved?) then !ok else old(writeRefused)
      ensures Draining() <==> output == [] || writeFailed || ok
    {
      writeRegistered := false;
      if output != [] {
        match outcome
        case Again =>
          AddWrite(ok);
          return false;
        case Broken =>
          writeFailed := true;
          return false;
        case Nothing =>
          writeFailed := true;
          return false;
        case Moved(n) =>
          assert sent + output == sent + output[..n] + output[n..];
          sent, output := sent + output[..n], output[n..];
      }
      if output != [] {
        AddWrite(ok);
      }
      return |output| <= lowWrite;
    }

    // bufferevent_write; `stored` is whether evbuffer_add finds the memory.
    method Write(data: seq<Byte>, stored: bool, ok: bool) returns (r: int)
      requires Valid()
      modifies this`output, this`writeRegistered, this`writeRefused, this`accepted
      ensures Valid() && r == if stored then 0 else -1
      ensures output == if stored then old(output) + data else old(output)
      ensures writeRegistered == (old(writeRegistered) || (stored && data != [] && enabledWrite && ok))
      ensures old(Draining()) ==>
        (Draining() <==> !stored || data == [] || !enabledWrite || writeFailed || old(writeRegistered) || ok)
    {
      if !stored {
        return -1;
      }
      assert accepted + data == sent + (output + data);
      output, accepted := output + data, accepted + data;
      if |data| > 0 && enabledWrite {
        AddWrite(ok);
      }
      return 0;
    }

    // bufferevent_read, and any other way to drain the input: a change of its length calls the pressure callback.
    method Read(size: nat, ok: bool) returns (data: seq<Byte>)
      requires Valid()
      modifies this`input, this`pressure, this`readRegistered, this`readRefused, this`taken
      ensures Valid() && data + input == old(input) && |data| == if |old(input)| < size then |old(input)| else size
      ensures var told := data != [] && old(pressure) && !AtMark();
        && pressure == (old(pressure) && !told)
        && readRegistered == (old(readRegistered) || (told && enabledRead && ok))
        && (old(Flowing()) ==> (Flowing() <==> !told || !enabledRead || readFailed || old(readRegistered) || ok))
    {
      var n := if |input| < size then |input| else size;
      data := input[..n];
      assert taken + input == taken + input[..n] + input[n..];
      input, taken := input[n..], taken + input[..n];
      if n != 0 && pressure {
        Pressure(ok);
      }
    }

    // bufferevent_enable. Enabling again after an error starts over. It never makes a stall.
    method Enable(read: bool, write: bool, readOk: bool, writeOk: bool) returns (r: int)
      requires Valid()
      modifies this`enabledRead, this`enabledWrite, this`readRegistered, this`writeRegistered
      modifies this`readRefused, this`writeRefused, this`readAhead, this`readFailed, this`writeFailed
      ensures Valid() && r == if (read && !readOk) || (write && !writeOk) then -1 else 0
      ensures enabledRead == (old(enabledRead) || (r == 0 && read)) && enabledWrite == (old(enabledWrite) || (r == 0 && write))
      ensures readRegistered == (old(readRegistered) || (read && readOk))
      ensures writeRegistered == (old(writeRegistered) || (write && writeOk && (read ==> readOk)))
      ensures readRefused == (if read then !readOk else old(readRefused))
      ensures writeRefused == (if write && (read ==> readOk) then !writeOk else old(writeRefused))
      ensures readFailed == (old(readFailed) && !(read && readOk))
      ensures writeFailed == (old(writeFailed) && !(write && writeOk && (read ==> readOk)))
      ensures (old(Flowing()) ==> Flowing()) && (old(Draining()) ==> Draining())
    {
      hide Conserves, TakenForFull;
      if read {
        AddRead(readOk);
        if !readOk {
          return -1;
        }
        readFailed := false;
      }
      if write {
        AddWrite(writeOk);
        if !writeOk {
          readAhead := readAhead || (read && !enabledRead);
          return -1;
        }
        writeFailed := false;
      }
      enabledRead, enabledWrite := enabledRead || read, enabledWrite || write;
      return 0;
    }

    // bufferevent_disable: an event that the backend fails to delete is off its lists all the same, but stays enabled;
    // so does a reader that was deleted before the writer failed.
    method Disable(read: bool, write: bool, readOk: bool, writeOk: bool) returns (r: int)
      requires Valid()
      modifies this`enabledRead, this`enabledWrite, this`readRegistered, this`writeRegistered
      modifies this`readRefused, this`writeRefused
      ensures Valid() && r == if (read && !readOk) || (write && !writeOk) then -1 else 0
      ensures enabledRead == (old(enabledRead) && !(r == 0 && read)) && enabledWrite == (old(enabledWrite) && !(r == 0 && write))
      ensures readRegistered == (old(readRegistered) && !read)
      ensures writeRegistered == (old(writeRegistered) && !(write && (read ==> readOk)))
      ensures readRefused == (old(readRefused) || (read && r != 0))
      ensures writeRefused == (old(writeRefused) || (write && (read ==> readOk) && !writeOk))
      // No stall if and only if every event_del succeeds that was to end a direction with something left to do.
      ensures old(Flowing()) ==> (Flowing() <==> r == 0 || !read || !enabledRead || readFailed || (pressure && AtMark()))
      ensures old(Draining()) ==>
        (Draining() <==> r == 0 || !write || (read && !readOk) || !enabledWrite || writeFailed || output == [])
    {
      hide Conserves, TakenForFull;
      if read {
        readRegistered := false;
        if !readOk {
          readRefused := true;
          return -1;
        }
      }
      if write {
        writeRegistered := false;
        if !writeOk {
          writeRefused, readRefused := true, readRefused || read;
          return -1;
        }
      }
      enabledRead, enabledWrite := enabledRead && !read, enabledWrite && !write;
      return 0;
    }

    // bufferevent_setwatermark; whichever mark is set, the input is looked at afresh.
    method SetWatermark(read: bool, write: bool, low: nat, high: nat, ok: bool)
      requires Valid()
      modifies this`lowRead, this`highRead, this`lowWrite, this`pressure, this`readRegistered, this`readRefused
      ensures Valid()
      ensures highRead == if read then high else old(highRead)
      ensures lowRead == if read then low else old(lowRead)
      ensures lowWrite == if write then low else old(lowWrite)
      ensures pressure == (old(pressure) && AtMark())
      ensures readRegistered == (old(readRegistered) || (!AtMark() && enabledRead && ok))
      ensures readRefused == if !AtMark() && enabledRead then !ok else old(readRefused)
      ensures old(Flowing()) ==> (Flowing() <==> AtMark() || !enabledRead || readFailed || old(readRegistered) || ok)
    {
      if read {
        lowRead, highRead := low, high;
      }
      if write {
        lowWrite := low;
      }
      Pressure(ok);
    }
  }

  // What may be read to reach the mark is no more than what is missing.
  lemma RoomIsLess(high: nat, len: nat)
    ensures len <= high ==> AsInt(high - len) <= high - len
  {
  }

  // ---------- Stalls ----------

  // A mark of 2^31 and nothing read yet: when the descriptor first becomes readable, the reader stops for good.
  method StalledByMark() returns (b: BufferEvent)
    ensures fresh(b) && b.Valid() && b.enabledRead && !b.readRefused && b.highRead == 0x8000_0000 && b.input == []
    ensures !b.Flowing()
  {
    b := new BufferEvent();
    b.SetWatermark(true, false, 0, 0x8000_0000, true);
    var r := b.Enable(true, false, true, true);
    var notify := b.OnReadable(None, 0, 0, Again, true, true);
  }

  // A failing event_del leaves the reader enabled and not registered.
  method StalledByDisable() returns (b: BufferEvent)
    ensures fresh(b) && b.Valid() && b.enabledRead && !b.readRegistered && !b.pressure && !b.Flowing()
  {
    b := new BufferEvent();
    var r := b.Enable(true, false, true, true);
    r := b.Disable(true, false, false, true);
  }
}
