// The select backend: two sets of bits, and a table of events beside each.
module SelectBackend {
  import opened Bytes
  import opened Watches

  // sizeof(fd_mask), which is sizeof(long)
  type Word = w: nat | w == 4 || w == 8 witness 4

  // A number of bytes that is one of whole words.
  predicate Whole(size: nat, word: Word) {
    if word == 4 then size % 4 == 0 else size % 8 == 0
  }

  // The bytes that hold n bits, in whole words: howmany(n, NFDBITS) * sizeof(fd_mask).
  function BytesFor(n: nat, word: Word): nat {
    if word == 4 then (n + 31) / 32 * 4 else (n + 63) / 64 * 8
  }

  lemma EnoughBytes(n: nat, word: Word)
    ensures n <= 8 * BytesFor(n, word) && 8 * BytesFor(n, word) <= n + 8 * word - 1 && Whole(BytesFor(n, word), word)
  {
    if word == 4 {
      assert (n + 31) / 32 * 4 % 4 == 0;
    } else {
      assert (n + 63) / 64 * 8 % 8 == 0;
    }
  }

  ghost function ViewOf(rByFd: seq<Option<Watcher>>, wByFd: seq<Option<Watcher>>, n: nat): (v: View)
    requires n <= |rByFd| && n <= |wByFd|
    ensures Total(v)
  {
    imap fd: int :: if 0 <= fd < n then Watch(rByFd[fd], wByFd[fd]) else NOBODY
  }

  // A set and its table up to n: a bit is set just where an event stands, and none stands above the highest.
  ghost predicate Agree(bits: seq<bool>, table: seq<Option<Watcher>>, n: nat, highest: nat) {
    && n <= |bits| && n <= |table|
    && (forall fd :: 0 <= fd < n ==> bits[fd] == table[fd].Some?)
    && forall fd :: highest < fd < n ==> table[fd].None?
  }

  lemma AgreeHere(bits: seq<bool>, table: seq<Option<Watcher>>, n: nat, highest: nat, fd: nat, e: Option<Watcher>)
    requires Agree(bits, table, n, highest) && fd <= highest < n
    ensures fd < |bits| && fd < |table| && Agree(bits[fd := e.Some?], table[fd := e], n, highest)
  {
  }

  lemma AgreeFor(bits: seq<bool>, table: seq<Option<Watcher>>, n: nat, highest: nat)
    requires Agree(bits, table, n, highest)
    ensures n <= |bits| && n <= |table| && (highest < n ==> bits[highest] == table[highest].Some?)
    ensures forall fd :: 0 <= fd < n ==> bits[fd] == table[fd].Some?
    ensures forall fd :: highest < fd < n ==> table[fd].None?
  {
  }

  lemma AgreeRealloc(bits: seq<bool>, bits': seq<bool>, table: seq<Option<Watcher>>, table': seq<Option<Watcher>>, n: nat, highest: nat)
    requires Agree(bits, table, n, highest) && n <= |bits'| && n <= |table'|
    requires (forall i :: 0 <= i < n ==> bits'[i] == bits[i]) && forall i :: 0 <= i < n ==> table'[i] == table[i]
    ensures Agree(bits', table', n, highest)
  {
  }

  // realloc: the old elements as far as they fit, and others that nothing is known of.
  method Realloc<T>(s: seq<T>, n: nat, filler: T) returns (t: seq<T>)
    ensures |t| == n && forall i :: 0 <= i < n && i < |s| ==> t[i] == s[i]
  {
    t := if |s| < n then s + seq(n - |s|, _ => filler) else s[..n];
  }

  // memset from an element on
  function Cleared<T>(s: seq<T>, from: nat, zero: T): (t: seq<T>)
    requires from <= |s|
    ensures |t| == |s|
    ensures forall i :: 0 <= i < |s| ==> t[i] == if i < from then s[i] else zero
  {
    s[..from] + seq(|s| - from, _ => zero)
  }

  const ALL := {0, 1, 2, 3, 4, 5}

  // struct selectop, with words of `word` bytes; of the sets that select(2) gives back only the memory matters.
  class SelectOp {
    const word: Word
    var eventFds: nat
    var eventFdsz: nat
    var readset: seq<bool>
    var writeset: seq<bool>
    var rByFd: seq<Option<Watcher>>
    var wByFd: seq<Option<Watcher>>

    // Arrays that grew in a resize that failed are longer than the size kept for all of them.
    ghost predicate Valid()
      reads this
    {
      && word <= eventFdsz && Whole(eventFdsz, word) && eventFds < 8 * eventFdsz
      && Agree(readset, rByFd, 8 * eventFdsz, eventFds) && Agree(writeset, wByFd, 8 * eventFdsz, eventFds)
    }

    ghost function View(): (v: View)
      requires Valid()
      reads this
      ensures Total(v)
    {
      ViewOf(rByFd, wByFd, 8 * eventFdsz)
    }

    // select_init
    constructor (word: Word)
      ensures Valid() && this.word == word && forall fd: int :: View()[fd] == NOBODY
    {
      EnoughBytes(32 + 1, word);
      var size := BytesFor(32 + 1, word);
      this.word, eventFds, eventFdsz := word, 0, size;
      readset, writeset := seq(8 * size, _ => false), seq(8 * size, _ => false);
      rByFd, wByFd := seq(8 * size, _ => None), seq(8 * size, _ => None);
    }

    // select_resize; `memory` holds the numbers of the reallocations that succeed.
    method Resize(fdsz: nat, memory: set<nat>) returns (r: int)
      requires Valid() && eventFdsz <= fdsz && Whole(fdsz, word)
      modifies this`eventFdsz, this`readset, this`writeset, this`rByFd, this`wByFd
      ensures Valid() && View() == old(View())
      ensures r == if ALL <= memory then 0 else -1
      ensures eventFdsz == if r == 0 then fdsz else old(eventFdsz)
    {
      hide ViewOf, Agree;
      r := ReallocAll(8 * fdsz, memory);
      if r == 0 {
        var n := 8 * eventFdsz;
        ClearedAgree(readset, rByFd, n, eventFds);
        ClearedAgree(writeset, wByFd, n, eventFds);
        ClearedView(rByFd, wByFd, n);
        readset, writeset := Cleared(readset, n, false), Cleared(writeset, n, false);
        rByFd, wByFd := Cleared(rByFd, n, None), Cleared(wByFd, n, None);
        eventFdsz := fdsz;
      }
    }

    // Its six calls of realloc, the first that fails being the last.
    method ReallocAll(n: nat, memory: set<nat>) returns (r: int)
      requires Valid() && 8 * eventFdsz <= n
      modifies this`readset, this`writeset, this`rByFd, this`wByFd
      ensures Valid() && View() == old(View())
      ensures r == if ALL <= memory then 0 else -1
      ensures r == 0 ==> |readset| == |writeset| == |rByFd| == |wByFd| == n
    {
      hide Agree, ViewOf;
      AgreeFor(readset, rByFd, 8 * eventFdsz, eventFds);
      AgreeFor(writeset, wByFd, 8 * eventFdsz, eventFds);
      ghost var bits, bits', table, table' := readset, writeset, rByFd, wByFd;
      if 0 in memory {
        readset := Realloc(readset, n, false);
      }
      if {0, 1, 2} <= memory {
        writeset := Realloc(writeset, n, false);
      }
      if {0, 1, 2, 3, 4} <= memory {
        rByFd := Realloc(rByFd, n, None);
      }
      if ALL <= memory {
        wByFd := Realloc(wByFd, n, None);
      }
      AgreeRealloc(bits, readset, table, rByFd, 8 * eventFdsz, eventFds);
      AgreeRealloc(bits', writeset, table', wByFd, 8 * eventFdsz, eventFds);
      SameView(table, rByFd, table', wByFd, 8 * eventFdsz);
      return if ALL <= memory then 0 else -1;
    }

    // The size that select_add asks for: doubled until the descriptor fits.
    method NewSize(fd: nat) returns (fdsz: nat)
      requires Valid()
      ensures eventFdsz <= fdsz && Whole(fdsz, word) && fd < 8 * fdsz
    {
      hide BytesFor, Agree;
      EnoughBytes(fd + 1, word);
      fdsz := eventFdsz;
      if fdsz < word {
        fdsz := word;
      }
      while fdsz < BytesFor(fd + 1, word)
        invariant eventFdsz <= fdsz && Whole(fdsz, word) && 0 < fdsz
      {
        TwiceAWord(fdsz, word);
        fdsz := fdsz * 2;
      }
    }

    // The first part of select_add: the sets reach to the descriptor.
    method Reach(fd: nat, memory: set<nat>) returns (r: int)
      requires Valid()
      modifies this
      ensures Valid() && View() == old(View())
      ensures r == 0 ==> fd <= eventFds
      ensures r == 0 || r == -1
      ensures ALL <= memory ==> r == 0
    {
      hide ViewOf;
      if eventFds < fd {
        var fdsz := NewSize(fd);
        if fdsz != eventFdsz {
          r := Resize(fdsz, memory);
          if r != 0 {
            return -1;
          }
        }
        eventFds := fd;
      }
      return 0;
    }

    // select_add
    method Add(e: Watcher, memory: set<nat>) returns (r: int)
      requires Valid() && Watchable(e)
      modifies this
      ensures Valid() && (r == 0 || r == -1) && (ALL <= memory ==> r == 0)
      ensures View() == if r == 0 then Adding(old(View()), e) else old(View())
    {
      hide ViewOf;
      r := Reach(e.fd, memory);
      if r == -1 {
        return;
      }
      Enter(e);
      return 0;
    }

    // The rest of select_add.
    method Enter(e: Watcher)
      requires Valid() && Watchable(e) && e.fd <= eventFds
      modifies this`readset, this`writeset, this`rByFd, this`wByFd
      ensures Valid() && View() == Adding(old(View()), e)
    {
      hide Agree, ViewOf;
      ghost var n := 8 * eventFdsz;
      AgreeFor(readset, rByFd, n, eventFds);
      AgreeFor(writeset, wByFd, n, eventFds);
      ViewPut(rByFd, wByFd, n, e.fd, Watch(rByFd[e.fd], wByFd[e.fd]).With(e));
      if e.wantsRead {
        AgreeHere(readset, rByFd, n, eventFds, e.fd, Some(e));
        readset := readset[e.fd := true];
        rByFd := rByFd[e.fd := Some(e)];
      }
      if e.wantsWrite {
        AgreeHere(writeset, wByFd, n, eventFds, e.fd, Some(e));
        writeset := writeset[e.fd := true];
        wByFd := wByFd[e.fd := Some(e)];
      }
    }

    // select_del
    method Del(e: Watcher) returns (r: int)
      requires Valid() && Watchable(e)
      modifies this`readset, this`writeset, this`rByFd, this`wByFd
      ensures Valid() && View() == Removing(old(View()), e) && r == 0
    {
      hide Agree, ViewOf;
      ghost var n := 8 * eventFdsz;
      AgreeFor(readset, rByFd, n, eventFds);
      AgreeFor(writeset, wByFd, n, eventFds);
      if eventFds < e.fd {
        NobodyAbove(rByFd, wByFd, n, eventFds, e);
        return 0;
      }
      ViewPut(rByFd, wByFd, n, e.fd, Watch(rByFd[e.fd], wByFd[e.fd]).Without(e));
      if e.wantsRead {
        AgreeHere(readset, rByFd, n, eventFds, e.fd, None);
        readset := readset[e.fd := false];
        rByFd := rByFd[e.fd := None];
      }
      if e.wantsWrite {
        AgreeHere(writeset, wByFd, n, eventFds, e.fd, None);
        writeset := writeset[e.fd := false];
        wByFd := wByFd[e.fd := None];
      }
      return 0;
    }

    method TellOne(i: nat, r: Ready, calls: seq<Call>) returns (more: seq<Call>)
      requires Valid() && Sound(View()) && i <= eventFds
      ensures forall e: Watcher :: Marks(more, e) == Marks(calls, e) + Due(View()[i], e, r)
    {
      hide Marks, Due;
      ghost var v := View();
      assert v[i] == Watch(rByFd[i], wByFd[i]) && SoundWatch(i, v[i]);
      more := Tell(Watch(rByFd[i], wByFd[i]), Asked(r, readset[i], writeset[i]), calls, i);
      AskedIsDue(Watch(rByFd[i], wByFd[i]), r);
    }

    // The scan of select_dispatch, which may start anywhere: `ready` is what select(2) finds among the descriptors
    // up to the highest.
    method Dispatch(ready: map<int, Ready>, start: nat) returns (calls: seq<Call>)
      requires Valid() && Sound(View()) && start <= eventFds
      requires forall fd :: fd in ready ==> !ready[fd].gone
      ensures forall e: Watcher :: Marks(calls, e) == Due(View()[e.fd], e, Of(ready, e.fd))
    {
      hide Marks, Due, Told, Reached, Sound;
      calls := [];
      ghost var v := View();
      NothingTold(v, ready, start, eventFds + 1);
      var i, j := start, 0;
      while j <= eventFds
        invariant 0 <= j <= eventFds + 1
        invariant i == if start + j <= eventFds then start + j else start + j - eventFds - 1
        invariant Told(calls, v, ready, Reached(start, eventFds + 1, j))
      {
        i := i + 1;
        if i >= eventFds + 1 {
          i := 0;
        }
        ReachedOneMore(start, eventFds + 1, j, i);
        ghost var before := calls;
        calls := TellOne(i, Of(ready, i), calls);
        ToldOneMore(before, calls, v, ready, Reached(start, eventFds + 1, j), i);
        j := j + 1;
      }
      AllReached(v, start, eventFds, calls, ready);
    }
  }

  lemma TwiceAWord(size: nat, word: Word)
    requires Whole(size, word)
    ensures Whole(size * 2, word)
  {
    if word == 4 {
      TwiceAMultiple(size, size / 4, 4);
    } else {
      TwiceAMultiple(size, size / 8, 8);
    }
  }

  lemma TwiceAMultiple(size: nat, k: nat, m: nat)
    requires m == 4 || m == 8
    requires size == m * k
    ensures m == 4 ==> size * 2 % 4 == 0
    ensures m == 8 ==> size * 2 % 8 == 0
  {
    if m == 4 {
      assert size * 2 == 4 * (2 * k);
    } else {
      assert size * 2 == 8 * (2 * k);
    }
  }

  lemma ClearedAgree(bits: seq<bool>, table: seq<Option<Watcher>>, n: nat, highest: nat)
    requires Agree(bits, table, n, highest) && highest < n && |bits| == |table|
    ensures Agree(Cleared(bits, n, false), Cleared(table, n, None), |bits|, highest)
  {
  }

  lemma ClearedView(r: seq<Option<Watcher>>, w: seq<Option<Watcher>>, n: nat)
    requires n <= |r| == |w|
    ensures ViewOf(Cleared(r, n, None), Cleared(w, n, None), |r|) == ViewOf(r, w, n)
  {
    hide Cleared;
  }

  lemma SameView(r: seq<Option<Watcher>>, r': seq<Option<Watcher>>, w: seq<Option<Watcher>>, w': seq<Option<Watcher>>, n: nat)
    requires n <= |r| && n <= |w| && n <= |r'| && n <= |w'|
    requires (forall i :: 0 <= i < n ==> r'[i] == r[i]) && forall i :: 0 <= i < n ==> w'[i] == w[i]
    ensures ViewOf(r', w', n) == ViewOf(r, w, n)
  {
  }

  lemma ViewPut(r: seq<Option<Watcher>>, w: seq<Option<Watcher>>, n: nat, fd: nat, to: Watch)
    requires fd < n <= |r| && n <= |w|
    ensures ViewOf(r, w, n)[fd] == Watch(r[fd], w[fd])
    ensures ViewOf(r[fd := to.reader], w[fd := to.writer], n) == ViewOf(r, w, n)[fd := to]
    ensures r[fd := r[fd]] == r && w[fd := w[fd]] == w
  {
  }

  lemma NobodyAbove(r: seq<Option<Watcher>>, w: seq<Option<Watcher>>, n: nat, highest: nat, e: Watcher)
    requires n <= |r| && n <= |w| && highest < e.fd
    requires forall fd :: highest < fd < n ==> r[fd].None? && w[fd].None?
    ensures Removing(ViewOf(r, w, n), e) == ViewOf(r, w, n)
  {
    assert ViewOf(r, w, n)[e.fd] == NOBODY;
  }

  // select(2) leaves a bit set only where it was set.
  function Asked(r: Ready, read: bool, write: bool): Ready {
    Ready(r.input && read, r.output && write, r.gone)
  }

  lemma AskedIsDue(w: Watch, r: Ready)
    ensures forall e: Watcher :: Due(w, e, Asked(r, w.reader.Some?, w.writer.Some?)) == Due(w, e, r)
  {
  }

  // The descriptors that a scan has come to in j turns.
  ghost function Reached(start: nat, n: nat, j: nat): iset<int>
    requires start < n
  {
    iset fd: int | 0 <= fd < n && Turn(start, n, fd) < j
  }

  lemma ReachedOneMore(start: nat, n: nat, j: nat, i: nat)
    requires start < n && i < n && Turn(start, n, i) == j
    ensures i !in Reached(start, n, j) && Reached(start, n, j + 1) == Reached(start, n, j) + iset{i as int}
  {
  }

  lemma NothingTold(v: View, ready: map<int, Ready>, start: nat, n: nat)
    requires start < n
    ensures Told([], v, ready, Reached(start, n, 0))
  {
  }

  lemma AllReached(v: View, start: nat, highest: nat, calls: seq<Call>, ready: map<int, Ready>)
    requires Total(v) && start <= highest && Told(calls, v, ready, Reached(start, highest + 1, highest + 1))
    requires forall fd: int :: !(0 <= fd <= highest) ==> v[fd] == NOBODY
    ensures forall e: Watcher :: Marks(calls, e) == Due(v[e.fd], e, Of(ready, e.fd))
  {
    forall e: Watcher
      ensures Marks(calls, e) == Due(v[e.fd], e, Of(ready, e.fd))
    {
      assert e.fd !in Reached(start, highest + 1, highest + 1) ==> v[e.fd] == NOBODY;
    }
  }
}
