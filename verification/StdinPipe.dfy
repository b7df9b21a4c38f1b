/**
 The exec session's stdin pipe: a bounded channel of chunks with a byte buffer beside it.

 Writers and Close work under the lock. A read looks at the buffer under the lock, receives from
 the channel without it, and takes the lock again to keep what did not fit.
 */
module StdinPipe {
  import opened Bytes
  import opened Sequences

  const CAPACITY := 64

  datatype Pipe<T> = Pipe(queue: seq<seq<T>>, buf: seq<T>, closed: bool)

  /** A read in progress: waiting on the channel for at most `room` bytes, or about to keep the rest of a chunk. */
  datatype Reader<T> = Idle | Receiving(room: nat) | Keeping(rest: seq<T>)

  /** The pipe with its one reader, all bytes accepted and delivered so far, and whether a write found the channel full. */
  datatype Run<T> = Run(pipe: Pipe<T>, reader: Reader<T>, accepted: seq<T>, delivered: seq<T>, overflowed: bool)

  function Fresh<T>(): Run<T> {
    Run(Pipe([], [], false), Idle, [], [], false)
  }

  datatype Step<T> = Write(data: seq<T>) | Close | ReadStart(room: nat) | Receive | Keep

  function Fit<T>(room: nat, data: seq<T>): nat {
    if room < |data| then room else |data|
  }

  predicate Full<T>(p: Pipe<T>) {
    |p.queue| >= CAPACITY
  }

  function Written<T>(p: Pipe<T>, data: seq<T>): Pipe<T> {
    if p.closed then p
    else if Full(p) then p.(buf := p.buf + data)
    else p.(queue := p.queue + [data])
  }

  predicate Enabled<T>(r: Run<T>, step: Step<T>) {
    match step
    case Write(_) => true
    case Close => true
    case ReadStart(_) => r.reader.Idle?
    case Receive => r.reader.Receiving? && (|r.pipe.queue| > 0 || r.pipe.closed)
    case Keep => r.reader.Keeping?
  }

  function Next<T>(r: Run<T>, step: Step<T>): Run<T>
    requires Enabled(r, step)
  {
    match step
    case Write(data) =>
      if r.pipe.closed then r
      else r.(pipe := Written(r.pipe, data), accepted := r.accepted + data, overflowed := r.overflowed || Full(r.pipe))
    case Close => r.(pipe := r.pipe.(closed := true))
    case ReadStart(room) =>
      if |r.pipe.buf| > 0 then
        var n := Fit(room, r.pipe.buf);
        r.(pipe := r.pipe.(buf := r.pipe.buf[n..]), delivered := r.delivered + r.pipe.buf[..n])
      else if r.pipe.closed then r
      else r.(reader := Receiving(room))
    case Receive =>
      if |r.pipe.queue| == 0 then r.(reader := Idle)
      else
        var data := r.pipe.queue[0];
        var n := Fit(r.reader.room, data);
        r.(pipe := r.pipe.(queue := r.pipe.queue[1..]), delivered := r.delivered + data[..n],
           reader := if n < |data| then Keeping(data[n..]) else Idle)
    case Keep => r.(pipe := r.pipe.(buf := r.pipe.buf + r.reader.rest), reader := Idle)
  }

  ghost predicate Legal<T>(r: Run<T>, steps: seq<Step<T>>)
    decreases |steps|
  {
    steps == [] || (Enabled(r, steps[0]) && Legal(Next(r, steps[0]), steps[1..]))
  }

  ghost function After<T>(r: Run<T>, steps: seq<Step<T>>): Run<T>
    requires Legal(r, steps)
    decreases |steps|
  {
    if steps == [] then r else After(Next(r, steps[0]), steps[1..])
  }

  function InHand<T>(reader: Reader<T>): seq<T> {
    if reader.Keeping? then reader.rest else []
  }

  /** Everything that came out or is still inside, in the order delivered, in hand, buffered, queued. */
  function Whole<T>(r: Run<T>): seq<T> {
    r.delivered + InHand(r.reader) + r.pipe.buf + Flatten(r.pipe.queue)
  }

  ghost predicate Conserves<T>(r: Run<T>) {
    multiset(r.accepted) == multiset(r.delivered) + multiset(InHand(r.reader)) + multiset(r.pipe.buf) + multiset(Flatten(r.pipe.queue))
  }

  /** Until a write overflows, the buffer holds only the rest of an earlier chunk. */
  ghost predicate InOrder<T>(r: Run<T>) {
    !r.overflowed ==> r.accepted == Whole(r) && (!r.reader.Idle? ==> r.pipe.buf == [])
  }

  lemma QueueHead<T>(queue: seq<seq<T>>, n: nat)
    requires queue != [] && n <= |queue[0]|
    ensures Flatten(queue) == queue[0][..n] + queue[0][n..] + Flatten(queue[1..])
  {
  }

  lemma QueueTail<T>(queue: seq<seq<T>>, data: seq<T>)
    ensures Flatten(queue + [data]) == Flatten(queue) + data
  {
    FlattenAppend(queue, [data]);
    assert Flatten([data]) == data + Flatten([]);
  }

  /** Both properties of the state. */
  ghost predicate Kept<T>(r: Run<T>) {
    Conserves(r) && InOrder(r)
  }

  lemma WriteKeeps<T>(r: Run<T>, data: seq<T>)
    requires Kept(r) && !r.pipe.closed
    ensures Kept(Next(r, Write(data)))
  {
    QueueTail(r.pipe.queue, data);
    var t := Next(r, Write(data));
    if !t.overflowed { assert Whole(t) == Whole(r) + data; }
  }

  lemma BufferKeeps<T>(r: Run<T>, room: nat)
    requires Kept(r) && r.reader.Idle? && |r.pipe.buf| > 0
    ensures Kept(Next(r, ReadStart(room)))
  {
    var n, t := Fit(room, r.pipe.buf), Next(r, ReadStart(room));
    var out, rest := r.pipe.buf[..n], r.pipe.buf[n..];
    assert r.pipe.buf == out + rest;
    assert Whole(t) == Whole(r) by { Regroup(r.delivered, out, rest, Flatten(r.pipe.queue)); }
    assert Conserves(t) by { assert multiset(r.delivered + out) == multiset(r.delivered) + multiset(out); }
  }

  lemma Regroup<T>(a: seq<T>, b: seq<T>, c: seq<T>, d: seq<T>)
    ensures (a + b) + [] + c + d == a + [] + (b + c) + d
  {
  }

  lemma ReceiveConserves<T>(r: Run<T>)
    requires Conserves(r) && r.reader.Receiving? && |r.pipe.queue| > 0
    ensures Conserves(Next(r, Receive))
  {
    var data, n := r.pipe.queue[0], Fit(r.reader.room, r.pipe.queue[0]);
    QueueHead(r.pipe.queue, n);
    assert InHand(Next(r, Receive).reader) == data[n..];
    assert multiset(r.delivered + data[..n]) == multiset(r.delivered) + multiset(data[..n]);
  }

  lemma ReceiveInOrder<T>(r: Run<T>)
    requires InOrder(r) && r.reader.Receiving? && |r.pipe.queue| > 0
    ensures InOrder(Next(r, Receive))
  {
    if !r.overflowed {
      var data, n := r.pipe.queue[0], Fit(r.reader.room, r.pipe.queue[0]);
      QueueHead(r.pipe.queue, n);
      assert InHand(Next(r, Receive).reader) == data[n..];
      Handover(r.delivered, data[..n], data[n..], Flatten(r.pipe.queue[1..]));
    }
  }

  lemma Handover<T>(a: seq<T>, b: seq<T>, c: seq<T>, d: seq<T>)
    ensures a + [] + [] + (b + c + d) == (a + b) + c + [] + d
  {
  }

  lemma KeepKeeps<T>(r: Run<T>)
    requires Kept(r) && r.reader.Keeping?
    ensures Kept(Next(r, Keep))
  {
  }

  lemma NextKeeps<T>(r: Run<T>, step: Step<T>)
    requires Enabled(r, step) && Kept(r)
    ensures Kept(Next(r, step))
  {
    match step
    case Write(data) => if !r.pipe.closed { WriteKeeps(r, data); }
    case Close =>
    case ReadStart(room) => if |r.pipe.buf| > 0 { BufferKeeps(r, room); }
    case Receive => if |r.pipe.queue| > 0 { ReceiveConserves(r); ReceiveInOrder(r); }
    case Keep => KeepKeeps(r);
  }

  lemma {:induction false} RunKeeps<T>(r: Run<T>, steps: seq<Step<T>>)
    requires Legal(r, steps) && Kept(r)
    ensures Kept(After(r, steps))
    decreases |steps|
  {
    if steps != [] {
      NextKeeps(r, steps[0]);
      RunKeeps(Next(r, steps[0]), steps[1..]);
    }
  }

  /** In every interleaving no byte is lost or made up. */
  lemma BytesConserved<T>(steps: seq<Step<T>>)
    requires Legal(Fresh(), steps)
    ensures Conserves(After(Fresh(), steps))
  {
    RunKeeps(Fresh(), steps);
  }

  /** In every interleaving in which no write finds the channel full, the bytes keep their order too. */
  lemma OrderKept<T>(steps: seq<Step<T>>)
    requires Legal(Fresh(), steps) && !After(Fresh(), steps).overflowed
    ensures Whole(After(Fresh(), steps)) == After(Fresh(), steps).accepted
  {
    RunKeeps(Fresh(), steps);
  }

  // ----- order is lost once a write overflows ----------------------------------------------------------------

  /** `k` writes of a zero byte. */
  function Zeros(k: nat): seq<Step<byte>> {
    if k == 0 then [] else [Write([0])] + Zeros(k - 1)
  }

  lemma {:induction false} ZerosRun(r: Run<byte>, k: nat, more: seq<Step<byte>>)
    requires !r.pipe.closed && |r.pipe.queue| + k <= CAPACITY
    ensures var t := r.(pipe := r.pipe.(queue := r.pipe.queue + seq(k, _ => [0])), accepted := r.accepted + seq(k, _ => 0));
            Legal(t, more) ==> Legal(r, Zeros(k) + more) && After(r, Zeros(k) + more) == After(t, more)
    decreases k
  {
    if k == 0 {
      assert Zeros(0) + more == more;
      assert r.pipe.queue + seq(0, _ => [0]) == r.pipe.queue && r.accepted + seq(0, _ => 0) == r.accepted;
    } else {
      var s := Next(r, Write([0]));
      ZerosRun(s, k - 1, more);
      assert (Zeros(k) + more)[1..] == Zeros(k - 1) + more;
      assert s.pipe.queue + seq(k - 1, _ => [0]) == r.pipe.queue + seq(k, _ => [0]);
      assert s.accepted + seq(k - 1, _ => 0) == r.accepted + seq(k, _ => 0);
    }
  }

  /** The channel filled with zeros, a one written into the buffer, then a read: the one comes out first. */
  lemma OverflowReorders()
    ensures var steps := Zeros(CAPACITY) + [Write([1]), ReadStart(1)];
            && Legal(Fresh(), steps)
            && After(Fresh(), steps).delivered == [1]
            && [0] <= After(Fresh(), steps).accepted
  {
    var more := [Write([1]), ReadStart(1)];
    var full := Fresh<byte>().(pipe := Fresh<byte>().pipe.(queue := [] + seq(CAPACITY, _ => [0])), accepted := [] + seq(CAPACITY, _ => 0));
    assert more[1..] == [ReadStart(1)] && more[1..][1..] == [];
    var wrote := Next(full, Write([1]));
    assert wrote.pipe.buf == [1] && wrote.accepted[0] == 0;
    assert Legal(wrote, more[1..]) && Legal(full, more);
    ZerosRun(Fresh(), CAPACITY, more);
  }

  // ----- the reader object ---------------------------------------------------------------------------------

  /** A read with nothing in between; on an open pipe that holds nothing it is left waiting on the channel. */
  function ReadThrough<T>(r: Run<T>, room: nat): Run<T>
    requires r.reader.Idle?
  {
    var a := Next(r, ReadStart(room));
    var b := if Enabled(a, Receive) then Next(a, Receive) else a;
    if b.reader.Keeping? then Next(b, Keep) else b
  }

  /** How a read comes out: with data, at the end of the input, or not yet. */
  datatype Ending = Data | End | Waiting

  method Copy(p: array<byte>, data: seq<byte>) returns (n: nat)
    modifies p
    ensures n == Fit(p.Length, data)
    ensures p[..n] == data[..n] && p[n..] == old(p[n..])
  {
    n := 0;
    while n < p.Length && n < |data|
      invariant 0 <= n <= p.Length && n <= |data|
      invariant p[..n] == data[..n] && p[n..] == old(p[n..])
    {
      p[n] := data[n];
      n := n + 1;
    }
  }

  class StdinPipeReader {
    var ch: seq<seq<byte>>
    var buf: seq<byte>
    var closed: bool

    ghost function State(): Pipe<byte>
      reads this
    {
      Pipe(ch, buf, closed)
    }

    constructor ()
      ensures State() == Fresh<byte>().pipe
    {
      ch, buf, closed := [], [], false;
    }

    method Write(data: seq<byte>)
      modifies this
      ensures State() == Written(old(State()), data)
    {
      if closed { return; }
      if |ch| < CAPACITY {
        ch := ch + [data];
      } else {
        buf := buf + data;
      }
    }

    method Close()
      modifies this
      ensures State() == old(State()).(closed := true)
    {
      if !closed { closed := true; }
    }

    /** Nothing is touched while a read waits; an empty chunk reads as the end of the input. */
    method Read(p: array<byte>) returns (n: nat, ending: Ending)
      modifies this, p
      ensures var out := ReadThrough(Run(old(State()), Idle, [], [], false), p.Length);
              && State() == out.pipe && n <= p.Length && p[..n] == out.delivered
              && (ending == Waiting <==> out.reader.Receiving?)
      ensures p[n..] == old(p[n..])
      ensures ending == Waiting <==> old(buf) == [] && !old(closed) && old(ch) == []
      ensures ending == End <==> old(buf) == [] && (old(closed) || (old(ch) != [] && old(ch)[0] == []))
      ensures ending == Data ==> var source := if old(buf) != [] then old(buf) else old(ch)[0];
                                 n == (if p.Length < |source| then p.Length else |source|) && p[..n] == source[..n]
    {
      if |buf| > 0 {
        n := Copy(p, buf);
        buf := buf[n..];
        return n, Data;
      }
      if closed { return 0, End; }
      if |ch| == 0 { return 0, Waiting; }
      var data := ch[0];
      ch := ch[1..];
      if |data| == 0 { return 0, End; }
      n := Copy(p, data);
      if n < |data| { buf := buf + data[n..]; }
      ending := Data;
    }
  }
}
