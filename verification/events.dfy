// Events and the time values they carry.
module Events {

  // struct timeval
  datatype TimeVal = TimeVal(sec: int, usec: int) {
    predicate Normal() {
      0 <= usec < 1000000
    }

    // The instant in microseconds.
    function Micros(): int {
      sec * 1000000 + usec
    }
  }

  // evutil_timercmp(a, b, >)
  predicate Later(a: TimeVal, b: TimeVal) {
    if a.sec == b.sec then a.usec > b.usec else a.sec > b.sec
  }

  // evutil_timeradd
  function TimeAdd(a: TimeVal, b: TimeVal): TimeVal {
    var u := a.usec + b.usec;
    if u >= 1000000 then TimeVal(a.sec + b.sec + 1, u - 1000000) else TimeVal(a.sec + b.sec, u)
  }

  // evutil_timersub
  function TimeSub(a: TimeVal, b: TimeVal): TimeVal {
    var u := a.usec - b.usec;
    if u < 0 then TimeVal(a.sec - b.sec - 1, u + 1000000) else TimeVal(a.sec - b.sec, u)
  }

  lemma LaterIsTotal(a: TimeVal, b: TimeVal, c: TimeVal)
    ensures Later(a, b) ==> !Later(b, a)
    ensures !Later(a, b) && !Later(b, a) ==> a == b
    ensures !Later(a, b) && !Later(b, c) ==> !Later(a, c)
  {
  }

  // For normalised times, later means a larger number of microseconds, and adding and subtracting are exact.
  lemma TimesAreInstants(a: TimeVal, b: TimeVal)
    requires a.Normal() && b.Normal()
    ensures Later(a, b) <==> a.Micros() > b.Micros()
    ensures TimeAdd(a, b).Normal() && TimeAdd(a, b).Micros() == a.Micros() + b.Micros()
    ensures TimeSub(a, b).Normal() && TimeSub(a, b).Micros() == a.Micros() - b.Micros()
  {
  }

  // What made an event active: the bits EV_TIMEOUT, EV_READ, EV_WRITE and EV_SIGNAL of ev_res.
  datatype Cause = ByTimeout | ByRead | ByWrite | BySignal

  // struct event. The three bits of ev_flags that say which lists the event is on are separate fields.
  class Event {
    const fd: int
    const wantsRead: bool
    const wantsWrite: bool
    const wantsSignal: bool
    const persists: bool
    const isInternal: bool
    const pri: nat
    var deadline: TimeVal
    var minHeapIdx: int
    var onTimeout: bool
    var onInserted: bool
    var onActive: bool
    var res: set<Cause>
    var ncalls: nat

    constructor (fd: int, wantsRead: bool, wantsWrite: bool, wantsSignal: bool, persists: bool, isInternal: bool, pri: nat)
      ensures this.fd == fd && this.wantsRead == wantsRead && this.wantsWrite == wantsWrite
      ensures this.wantsSignal == wantsSignal && this.persists == persists && this.isInternal == isInternal
      ensures this.pri == pri && minHeapIdx == -1 && !onTimeout && !onInserted && !onActive && res == {} && ncalls == 0
    {
      this.fd, this.wantsRead, this.wantsWrite := fd, wantsRead, wantsWrite;
      this.wantsSignal, this.persists, this.isInternal, this.pri := wantsSignal, persists, isInternal, pri;
      deadline, minHeapIdx, onTimeout, onInserted, onActive := TimeVal(0, 0), -1, false, false, false;
      res, ncalls := {}, 0;
    }
  }
}
