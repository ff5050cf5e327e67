/** The circular byte queue of the core, one slot of which always stays free. */
module RingBuffer {
  import opened Bytes

  /** The bytes from `r` up to `w`, around the end of the buffer if need be. */
  function Queue(buf: seq<byte>, r: nat, w: nat): (q: seq<byte>)
    requires r < |buf| && w < |buf|
    ensures |q| == if w < r then |buf| - (r - w) else w - r
  {
    if r <= w then buf[r..w] else buf[r..] + buf[..w]
  }

  function Next(at: nat, size: nat): nat { if at + 1 == size then 0 else at + 1 }

  lemma Wraps(at: nat, size: nat)
    requires at < size
    ensures (at + 1) % size == Next(at, size)
  {
  }

  // ----- how the queue changes

  lemma PutStraight(buf: seq<byte>, r: nat, w: nat, part: seq<byte>)
    requires r < |buf| && w + |part| < |buf| && |Queue(buf, r, w)| + |part| < |buf|
    ensures Queue(Splice(buf, w, part), r, w + |part|) == Queue(buf, r, w) + part
  {
  }

  lemma PutAround(buf: seq<byte>, r: nat, w: nat, first: seq<byte>, second: seq<byte>)
    requires r < |buf| && w < |buf| && w + |first| == |buf| && |Queue(buf, r, w)| + |first| + |second| < |buf|
    ensures |second| < |buf| && Queue(Splice(Splice(buf, w, first), 0, second), r, |second|)
      == Queue(buf, r, w) + (first + second)
  {
    assert r <= w && |second| < r;
    var buf' := Splice(Splice(buf, w, first), 0, second);
    assert buf'[r..] == buf[r..w] + first;
    assert buf'[..|second|] == second;
  }

  lemma GetStraight(buf: seq<byte>, r: nat, w: nat, n: nat)
    requires r < |buf| && w < |buf| && r + n < |buf| && n <= |Queue(buf, r, w)|
    ensures buf[r..r + n] == Queue(buf, r, w)[..n] && Queue(buf, r + n, w) == Queue(buf, r, w)[n..]
  {
  }

  lemma GetAround(buf: seq<byte>, r: nat, w: nat, n: nat)
    requires r < |buf| && w < |buf| && r + n >= |buf| && n <= |Queue(buf, r, w)|
    ensures var m := n - (|buf| - r);
      && m < |buf| && buf[r..] + buf[..m] == Queue(buf, r, w)[..n] && Queue(buf, m, w) == Queue(buf, r, w)[n..]
  {
  }

  /** Two copies, one behind the other. */
  lemma Drained(was: seq<byte>, first: seq<byte>, second: seq<byte>)
    requires |first| + |second| <= |was|
    ensures var now, n := Splice(Splice(was, 0, first), |first|, second), |first| + |second|;
      now[..n] == first + second && now[n..] == was[n..]
    ensures second == [] ==>
      Splice(was, 0, first)[..|first|] == first && Splice(was, 0, first)[|first|..] == was[|first|..]
  {
  }

  lemma StoreOutside(buf: seq<byte>, r: nat, w: nat, d: byte)
    requires r < |buf| && w < |buf|
    ensures Queue(buf[w := d], r, w) == Queue(buf, r, w)
  {
  }

  lemma QueueGrows(buf: seq<byte>, r: nat, w: nat)
    requires r < |buf| && w < |buf| && |Queue(buf, r, w)| + 1 < |buf|
    ensures Queue(buf, r, Next(w, |buf|)) == Queue(buf, r, w) + [buf[w]]
  {
  }

  lemma QueueShrinks(buf: seq<byte>, r: nat, w: nat)
    requires r < |buf| && w < |buf| && Queue(buf, r, w) != []
    ensures Queue(buf, r, w) == [buf[r]] + Queue(buf, Next(r, |buf|), w)
  {
    var q, rest := Queue(buf, r, w), Queue(buf, Next(r, |buf|), w);
    if r < w {
      assert q == [buf[r]] + rest;
    } else if r + 1 < |buf| {
      assert buf[r..] == [buf[r]] + buf[r + 1..];
      assert q == [buf[r]] + rest;
    } else {
      assert buf[r..] == [buf[r]] && rest == buf[..w];
    }
  }

  lemma FullExactly(buf: seq<byte>, r: nat, w: nat)
    requires r < |buf| && w < |buf|
    ensures Next(w, |buf|) == r <==> |Queue(buf, r, w)| + 1 == |buf|
    ensures r == w <==> Queue(buf, r, w) == []
  {
  }

  class RingBuffer {
    const size: nat
    const buf: array<byte>
    var addrW: nat
    var addrR: nat

    ghost predicate Valid()
      reads this
    {
      size > 0 && buf.Length == size && addrW < size && addrR < size
    }

    ghost function Contents(): seq<byte>
      requires Valid()
      reads this, buf
    {
      Queue(buf[..], addrR, addrW)
    }

    constructor (capacity: nat)
      ensures Valid() && fresh(buf) && size == capacity + 1 && Contents() == []
    {
      size := capacity + 1;
      buf := new byte[capacity + 1](_ => 0);
      addrW, addrR := 0, 0;
    }

    method Available() returns (n: nat)
      requires Valid()
      ensures n == size - 1 - |Contents()|
    {
      if addrW < addrR {
        n := addrR - addrW - 1;
      } else {
        n := (size - addrW) + addrR - 1;
      }
    }

    method Use() returns (n: nat)
      requires Valid()
      ensures n == |Contents()|
    {
      if addrW < addrR {
        n := size - (addrR - addrW);
      } else {
        n := addrW - addrR;
      }
    }

    /** The result is -1 whether or not there was room. */
    method Putc(data: byte) returns (result: int)
      requires Valid()
      modifies this`addrW, buf
      ensures Valid() && result == -1
      ensures Contents() == if old(|Contents()|) < size - 1 then old(Contents()) + [data] else old(Contents())
    {
      hide Queue;
      Wraps(addrW, size);
      FullExactly(buf[..], addrR, addrW);
      var next := (addrW + 1) % size;
      if next == addrR {
        return -1;
      }
      StoreOutside(buf[..], addrR, addrW, data);
      buf[addrW] := data;
      assert buf[..] == old(buf[..])[addrW := data];
      QueueGrows(buf[..], addrR, addrW);
      addrW := next;
      return -1;
    }

    method Put(data: seq<byte>, len: nat) returns (taken: nat)
      requires Valid() && len <= |data|
      modifies this`addrW, buf
      ensures Valid()
      ensures taken == Min(len, size - 1 - old(|Contents()|))
      ensures Contents() == old(Contents()) + data[..taken]
    {
      hide Queue;
      var available := Available();
      taken := if len < available then len else available;
      if addrW + taken < size {
        PutStraight(buf[..], addrR, addrW, data[..taken]);
        Fill(addrW, data[..taken]);
        addrW := addrW + taken;
      } else {
        var remaining := size - addrW;
        PutAround(buf[..], addrR, addrW, data[..remaining], data[remaining..taken]);
        Fill(addrW, data[..remaining]);
        Fill(0, data[remaining..taken]);
        addrW := taken - remaining;
        assert data[..taken] == data[..remaining] + data[remaining..taken];
      }
    }

    /** `memcpy` into the buffer. */
    method Fill(at: nat, part: seq<byte>)
      requires buf.Length == size && at + |part| <= size
      modifies buf
      ensures buf[..] == Splice(old(buf[..]), at, part)
    {
      forall i | 0 <= i < |part| { buf[at + i] := part[i]; }
    }

    method Peek() returns (result: int)
      requires Valid()
      ensures result == if Contents() == [] then -1 else Contents()[0]
    {
      if addrR == addrW {
        return -1;
      }
      return buf[addrR];
    }

    method Getc() returns (result: int)
      requires Valid()
      modifies this`addrR
      ensures Valid()
      ensures old(Contents()) == [] ==> result == -1 && Contents() == []
      ensures old(Contents()) != [] ==> result == old(Contents())[0] && Contents() == old(Contents())[1..]
    {
      if addrR == addrW {
        return -1;
      }
      Wraps(addrR, size);
      result := buf[addrR];
      addrR := (addrR + 1) % size;
    }

    method Get(data: array<byte>, len: nat) returns (taken: nat)
      requires Valid() && len <= data.Length && data != buf
      modifies this`addrR, data
      ensures Valid()
      ensures taken == Min(len, old(|Contents()|))
      ensures data[..taken] == old(Contents())[..taken] && data[taken..] == old(data[taken..])
      ensures Contents() == old(Contents())[taken..]
    {
      hide Queue;
      var used := Use();
      taken := if len < used then len else used;
      if addrR + taken < size {
        GetLinear(data, taken);
      } else {
        GetWrapped(data, taken);
      }
    }

    method GetLinear(data: array<byte>, n: nat)
      requires Valid() && n <= data.Length && data != buf && n <= |Contents()| && addrR + n < size
      modifies this`addrR, data
      ensures Valid()
      ensures data[..n] == old(Contents())[..n] && data[n..] == old(data[n..])
      ensures Contents() == old(Contents())[n..]
    {
      hide Queue, Splice;
      ghost var was, bytes := data[..], buf[..];
      GetStraight(bytes, addrR, addrW, n);
      Drain(data, 0, addrR, n);
      assert buf[..] == bytes;
      Drained(was, bytes[addrR..addrR + n], []);
      addrR := addrR + n;
    }

    method GetWrapped(data: array<byte>, n: nat)
      requires Valid() && n <= data.Length && data != buf && n <= |Contents()| && addrR + n >= size
      modifies this`addrR, data
      ensures Valid()
      ensures data[..n] == old(Contents())[..n] && data[n..] == old(data[n..])
      ensures Contents() == old(Contents())[n..]
    {
      hide Queue, Splice;
      ghost var was, bytes := data[..], buf[..];
      var remaining := size - addrR;
      GetAround(bytes, addrR, addrW, n);
      Drain(data, 0, addrR, remaining);
      assert buf[..] == bytes && bytes[addrR..addrR + remaining] == bytes[addrR..];
      Drain(data, remaining, 0, n - remaining);
      assert buf[..] == bytes && bytes[0..0 + (n - remaining)] == bytes[..n - remaining];
      Drained(was, bytes[addrR..], bytes[..n - remaining]);
      addrR := n - remaining;
    }

    /** `memcpy` out of the buffer. */
    method Drain(data: array<byte>, to: nat, from: nat, n: nat)
      requires buf.Length == size && data != buf && from + n <= size && to + n <= data.Length
      modifies data
      ensures data[..] == Splice(old(data[..]), to, buf[..][from..from + n])
    {
      forall i | 0 <= i < n { data[to + i] := buf[from + i]; }
    }

    method Clear()
      requires Valid()
      modifies this`addrW, this`addrR
      ensures Valid() && Contents() == []
    {
      addrW, addrR := 0, 0;
    }
  }

  // ----- whole histories of one caller

  datatype Op = OpPutc(data: byte) | OpPut(bytes: seq<byte>) | OpGetc | OpGet(count: nat) | OpClear

  /** A bounded queue: what it holds, what has gone in and what has come out. */
  datatype Fifo = Fifo(capacity: nat, queue: seq<byte>, accepted: seq<byte>, out: seq<byte>)

  /** The longest prefix that fits goes in. */
  function Enter(f: Fifo, bytes: seq<byte>): (f': Fifo)
    requires |f.queue| <= f.capacity
    ensures |f'.queue| <= f'.capacity == f.capacity
  {
    var part := bytes[..Min(|bytes|, f.capacity - |f.queue|)];
    f.(queue := f.queue + part, accepted := f.accepted + part)
  }

  /** As many bytes as there are, up to `count`, come out. */
  function Leave(f: Fifo, count: nat): (f': Fifo)
    requires |f.queue| <= f.capacity
    ensures |f'.queue| <= f'.capacity == f.capacity
  {
    var n := Min(count, |f.queue|);
    f.(queue := f.queue[n..], out := f.out + f.queue[..n])
  }

  function Serve(f: Fifo, op: Op): (f': Fifo)
    requires |f.queue| <= f.capacity
    ensures |f'.queue| <= f'.capacity == f.capacity
  {
    match op
    case OpPutc(d) => Enter(f, [d])
    case OpPut(bytes) => Enter(f, bytes)
    case OpGetc => Leave(f, 1)
    case OpGet(count) => Leave(f, count)
    case OpClear => f.(queue := [])
  }

  function ServeAll(f: Fifo, ops: seq<Op>): (f': Fifo)
    requires |f.queue| <= f.capacity
    ensures |f'.queue| <= f'.capacity == f.capacity
    decreases |ops|
  {
    if ops == [] then f else ServeAll(Serve(f, ops[0]), ops[1..])
  }

  /** Every sequence of calls on the ring buffer behaves as on a bounded queue. */
  method Replay(ring: RingBuffer, ops: seq<Op>) returns (out: seq<byte>)
    requires ring.Valid()
    modifies ring, ring.buf
    ensures ring.Valid()
    ensures var f := ServeAll(Fifo(ring.size - 1, old(ring.Contents()), [], []), ops);
      ring.Contents() == f.queue && out == f.out
  {
    hide Queue;
    out := [];
    ghost var f := Fifo(ring.size - 1, ring.Contents(), [], []);
    for i := 0 to |ops|
      invariant ring.Valid() && f.capacity == ring.size - 1 && |f.queue| <= f.capacity
      invariant f.queue == ring.Contents() && f.out == out
      invariant ServeAll(f, ops[i..]) == ServeAll(Fifo(ring.size - 1, old(ring.Contents()), [], []), ops)
    {
      assert ops[i..][1..] == ops[i + 1..];
      out := ReplayOne(ring, ops[i], f, out);
      f := Serve(f, ops[i]);
    }
  }

  method ReplayOne(ring: RingBuffer, op: Op, ghost f: Fifo, out: seq<byte>) returns (out': seq<byte>)
    requires ring.Valid() && f.capacity == ring.size - 1 && f.queue == ring.Contents() && f.out == out
    modifies ring, ring.buf
    ensures ring.Valid() && ring.Contents() == Serve(f, op).queue && out' == Serve(f, op).out
  {
    hide Queue;
    out' := out;
    match op
    case OpPutc(d) =>
      var result := ring.Putc(d);
    case OpPut(bytes) =>
      var n := ring.Put(bytes, |bytes|);
    case OpGetc =>
      var result := ring.Getc();
      if f.queue != [] {
        assert f.queue[..1] == [f.queue[0]];
      }
      if result != -1 {
        out' := out + [result];
      }
    case OpGet(count) =>
      var data := new byte[count](_ => 0);
      var n := ring.Get(data, count);
      out' := out + data[..n];
    case OpClear =>
      ring.Clear();
  }

  /** Conservation: unless it is cleared, what has gone in is what has come out, followed by what is still inside. */
  lemma {:induction false} NothingLeaks(f: Fifo, ops: seq<Op>)
    requires |f.queue| <= f.capacity && f.accepted == f.out + f.queue && OpClear !in ops
    ensures var f' := ServeAll(f, ops); f'.accepted == f'.out + f'.queue
    decreases |ops|
  {
    if ops != [] {
      assert OpClear !in ops[1..];
      var f' := Serve(f, ops[0]);
      assert f'.accepted == f'.out + f'.queue by {
        if ops[0].OpGetc? || ops[0].OpGet? {
          var n := Min(if ops[0].OpGetc? then 1 else ops[0].count, |f.queue|);
          assert f.queue == f.queue[..n] + f.queue[n..];
        }
      }
      NothingLeaks(f', ops[1..]);
    }
  }

  // ----- one producer and one consumer, step by step

  /** Where a `putc` caller stands; what it has read is kept in the step. */
  datatype Producer =
    | Resting
    | Called(data: byte)                    // about to read addr_w
    | ReadW(data: byte, next: nat)          // about to read addr_r and compare
    | Room(data: byte, next: nat)           // about to read addr_w again
    | Store(data: byte, next: nat, at: nat) // about to store the byte
    | Publish(data: byte, next: nat)        // about to write addr_w

  /** Where a `getc` caller stands. The two reads of its comparison may come in either order. */
  datatype Consumer =
    | Waiting
    | Asked                                 // about to read addr_r or addr_w
    | ReadR(r: nat)                         // about to read addr_w and compare
    | ReadTail(w: nat, held: nat)           // about to read addr_r and compare; `held` bytes were inside
    | NotEmpty                              // about to read addr_r again
    | Fetch(at: nat)                        // about to read the byte
    | Fetched(data: byte)                   // about to read addr_r once more
    | Release(data: byte, next: nat)        // about to write addr_r

  datatype Shared = Shared(
    buf: seq<byte>, addrW: nat, addrR: nat,
    producer: Producer, consumer: Consumer,
    accepted: seq<byte>,  // bytes given to the putc calls that have published
    taken: seq<byte>,     // bytes whose getc has released them
    puts: nat, gets: nat, // calls made
    refusals: seq<nat>,   // for each putc that gave up: the bytes inside when it read addr_r
    misses: seq<nat>)     // for each getc that gave up: the bytes inside when it read addr_w

  /** One atomic read or write of either side; `StartPut` and `StartGet` are calls. */
  datatype Action = StartPut(data: byte) | StepPut | StartGet | StepGet(tailFirst: bool)

  predicate WellFormed(s: Shared) {
    0 < |s.buf| && s.addrW < |s.buf| && s.addrR < |s.buf|
    && (s.producer.Store? ==> s.producer.at < |s.buf|)
    && (s.consumer.Fetch? ==> s.consumer.at < |s.buf|)
  }

  function Inside(s: Shared): seq<byte>
    requires WellFormed(s)
  {
    Queue(s.buf, s.addrR, s.addrW)
  }

  function StepProducer(s: Shared): Shared
    requires WellFormed(s)
  {
    match s.producer
    case Resting => s
    case Called(d) => s.(producer := ReadW(d, (s.addrW + 1) % |s.buf|))
    case ReadW(d, next) =>
      if next == s.addrR then s.(producer := Resting, refusals := s.refusals + [|Inside(s)|])
      else s.(producer := Room(d, next))
    case Room(d, next) => s.(producer := Store(d, next, s.addrW))
    case Store(d, next, at) => s.(buf := s.buf[at := d], producer := Publish(d, next))
    case Publish(d, next) => s.(addrW := next, producer := Resting, accepted := s.accepted + [d])
  }

  function StepConsumer(s: Shared, tailFirst: bool): Shared
    requires WellFormed(s)
  {
    match s.consumer
    case Waiting => s
    case Asked => s.(consumer := if tailFirst then ReadTail(s.addrW, |Inside(s)|) else ReadR(s.addrR))
    case ReadR(r) =>
      if r == s.addrW then s.(consumer := Waiting, misses := s.misses + [|Inside(s)|]) else s.(consumer := NotEmpty)
    case ReadTail(w, held) =>
      if s.addrR == w then s.(consumer := Waiting, misses := s.misses + [held]) else s.(consumer := NotEmpty)
    case NotEmpty => s.(consumer := Fetch(s.addrR))
    case Fetch(at) => s.(consumer := Fetched(s.buf[at]))
    case Fetched(d) => s.(consumer := Release(d, (s.addrR + 1) % |s.buf|))
    case Release(d, next) => s.(addrR := next, consumer := Waiting, taken := s.taken + [d])
  }

  function Act(s: Shared, a: Action): Shared
    requires WellFormed(s)
  {
    match a
    case StartPut(d) => if s.producer.Resting? then s.(producer := Called(d), puts := s.puts + 1) else s
    case StepPut => StepProducer(s)
    case StartGet => if s.consumer.Waiting? then s.(consumer := Asked, gets := s.gets + 1) else s
    case StepGet(tailFirst) => StepConsumer(s, tailFirst)
  }

  /** Every call that has returned moved a byte, or found the buffer full or empty. */
  predicate Settled(s: Shared) {
    && s.puts == |s.accepted| + |s.refusals| + (if s.producer.Resting? then 0 else 1)
    && s.gets == |s.taken| + |s.misses| + (if s.consumer.Waiting? then 0 else 1)
    && (forall i | 0 <= i < |s.refusals| :: s.refusals[i] == |s.buf| - 1)
    && (forall i | 0 <= i < |s.misses| :: s.misses[i] == 0)
  }

  /** The queue accounts for every byte, and each side's private view is still true. */
  predicate Consistent(s: Shared) {
    && WellFormed(s)
    && s.accepted == s.taken + Inside(s)
    && Settled(s)
    && (match s.producer
        case Resting => true
        case Called(_) => true
        case ReadW(_, next) => next == Next(s.addrW, |s.buf|)
        case Room(_, next) => next == Next(s.addrW, |s.buf|) && |Inside(s)| + 1 < |s.buf|
        case Store(_, next, at) => next == Next(s.addrW, |s.buf|) && at == s.addrW && |Inside(s)| + 1 < |s.buf|
        case Publish(d, next) =>
          next == Next(s.addrW, |s.buf|) && |Inside(s)| + 1 < |s.buf| && s.buf[s.addrW] == d)
    && (match s.consumer
        case Waiting => true
        case Asked => true
        case ReadR(r) => r == s.addrR
        case ReadTail(w, held) => (w == s.addrR <==> held == 0) && (held > 0 ==> Inside(s) != [])
        case NotEmpty => Inside(s) != []
        case Fetch(at) => Inside(s) != [] && at == s.addrR
        case Fetched(d) => Inside(s) != [] && d == Inside(s)[0]
        case Release(d, next) => Inside(s) != [] && d == Inside(s)[0] && next == Next(s.addrR, |s.buf|))
  }

  lemma ProducerKeeps(s: Shared)
    requires Consistent(s)
    ensures Consistent(StepProducer(s))
  {
    hide Queue;
    Wraps(s.addrW, |s.buf|);
    FullExactly(s.buf, s.addrR, s.addrW);
    match s.producer
    case Store(d, next, at) =>
      StoreOutside(s.buf, s.addrR, s.addrW, d);
    case Publish(d, next) =>
      QueueGrows(s.buf, s.addrR, s.addrW);
    case _ =>
  }

  lemma ConsumerKeeps(s: Shared, tailFirst: bool)
    requires Consistent(s)
    ensures Consistent(StepConsumer(s, tailFirst))
  {
    hide Queue;
    Wraps(s.addrR, |s.buf|);
    FullExactly(s.buf, s.addrR, s.addrW);
    match s.consumer
    case Fetch(at) =>
      QueueShrinks(s.buf, s.addrR, s.addrW);
    case Release(d, next) =>
      QueueShrinks(s.buf, s.addrR, s.addrW);
      var s' := StepConsumer(s, tailFirst);
      assert s.taken + ([d] + Inside(s')) == (s.taken + [d]) + Inside(s');
    case _ =>
  }

  /** The state after an interleaving. */
  function Interleave(s: Shared, actions: seq<Action>): (s': Shared)
    requires Consistent(s)
    ensures Consistent(s')
    decreases |actions|
  {
    hide Queue, StepProducer, StepConsumer;
    if actions == [] then s
    else
      ProducerKeeps(s);
      ConsumerKeeps(s, true);
      ConsumerKeeps(s, false);
      Interleave(Act(s, actions[0]), actions[1..])
  }

  function Empty(buf: seq<byte>): Shared { Shared(buf, 0, 0, Resting, Waiting, [], [], 0, 0, [], []) }

  /**
   * Single producer, single consumer: under every interleaving of their reads and writes, the bytes taken out are
   * a prefix of the bytes accepted, in order, and at most the capacity lies between. Every call that has returned
   * moved a byte, or gave up because the buffer was full when it read addr_r, or empty when it read addr_w.
   */
  lemma NothingLostOrInvented(buf: seq<byte>, actions: seq<Action>)
    requires buf != []
    ensures var s := Interleave(Empty(buf), actions);
      && WellFormed(s)
      && s.taken <= s.accepted
      && s.accepted == s.taken + Inside(s)
      && |s.accepted| - |s.taken| <= |s.buf| - 1
      && Settled(s)
  {
  }
}
