/** When the stdin pipe keeps the order of what was written: exactly when no write found the channel full. */
module StdinPipeOrder {
  import opened Sequences
  import opened StdinPipe

  // ----- an element that overtakes stays ahead ----------------------------------------------------------------

  /** `x` waits in the buffer while `y` is still queued, out of reach of a receive under way. */
  ghost predicate Waits<T>(r: Run<T>, x: T, y: T) {
    && x in r.pipe.buf && y !in r.pipe.buf && y !in r.delivered && y !in InHand(r.reader)
    && (r.reader.Receiving? ==> |r.pipe.queue| > 0 && y !in r.pipe.queue[0])
  }

  /** `x` has been delivered and `y` was not before it. */
  ghost predicate Passed<T>(r: Run<T>, x: T, y: T) {
    exists i :: 0 <= i < |r.delivered| && r.delivered[i] == x && y !in r.delivered[..i]
  }

  ghost predicate Overtakes<T>(r: Run<T>, x: T, y: T) {
    Waits(r, x, y) || Passed(r, x, y)
  }

  lemma PassedGrows<T>(r: Run<T>, t: Run<T>, x: T, y: T)
    requires Passed(r, x, y) && r.delivered <= t.delivered
    ensures Passed(t, x, y)
  {
    var i :| 0 <= i < |r.delivered| && r.delivered[i] == x && y !in r.delivered[..i];
    assert t.delivered[..i] == r.delivered[..i] && t.delivered[i] == x;
  }

  lemma ReadOvertakes<T>(r: Run<T>, room: nat, x: T, y: T)
    requires Waits(r, x, y) && r.reader.Idle?
    ensures Overtakes(Next(r, ReadStart(room)), x, y)
  {
    var n, t := Fit(room, r.pipe.buf), Next(r, ReadStart(room));
    var j :| 0 <= j < |r.pipe.buf| && r.pipe.buf[j] == x;
    if j < n {
      var i := |r.delivered| + j;
      assert t.delivered[i] == x && t.delivered[..i] == r.delivered + r.pipe.buf[..j];
    } else {
      assert r.pipe.buf[n..][j - n] == x;
    }
  }

  lemma NextOvertakes<T>(r: Run<T>, step: Step<T>, x: T, y: T)
    requires Enabled(r, step) && Overtakes(r, x, y)
    requires step.Write? && !r.pipe.closed ==> y !in step.data
    ensures Overtakes(Next(r, step), x, y)
  {
    if Passed(r, x, y) {
      PassedGrows(r, Next(r, step), x, y);
    } else if step.ReadStart? {
      ReadOvertakes(r, step.room, x, y);
    }
  }

  lemma DistinctSplit<T>(a: seq<T>, b: seq<T>, y: T)
    requires Distinct(a + b)
    ensures Distinct(a) && Distinct(b)
    ensures y in a ==> y !in b
  {
    assert forall i :: 0 <= i < |a| ==> (a + b)[i] == a[i];
    assert forall i :: 0 <= i < |b| ==> (a + b)[|a| + i] == b[i];
  }

  lemma {:induction false} AcceptedGrows<T>(r: Run<T>, steps: seq<Step<T>>)
    requires Legal(r, steps)
    ensures r.accepted <= After(r, steps).accepted
    decreases |steps|
  {
    if steps != [] { AcceptedGrows(Next(r, steps[0]), steps[1..]); }
  }

  lemma {:induction false} RunOvertakes<T>(r: Run<T>, steps: seq<Step<T>>, x: T, y: T)
    requires Legal(r, steps) && Overtakes(r, x, y) && y in r.accepted && Distinct(After(r, steps).accepted)
    ensures Overtakes(After(r, steps), x, y)
    decreases |steps|
  {
    if steps != [] {
      var next, all := Next(r, steps[0]), After(r, steps).accepted;
      AcceptedGrows(next, steps[1..]);
      if steps[0].Write? && !r.pipe.closed {
        assert all == next.accepted + all[|next.accepted|..];
        DistinctSplit(next.accepted, all[|next.accepted|..], y);
        DistinctSplit(r.accepted, steps[0].data, y);
      }
      NextOvertakes(r, steps[0], x, y);
      RunOvertakes(next, steps[1..], x, y);
    }
  }

  // ----- a write that overflows overtakes -----------------------------------------------------------------------

  ghost predicate Before<T>(s: seq<T>, y: T, x: T) {
    exists k, l :: 0 <= k < l < |s| && s[k] == y && s[l] == x
  }

  ghost predicate Chunked<T>(r: Run<T>) {
    forall i :: 0 <= i < |r.pipe.queue| ==> r.pipe.queue[i] != []
  }

  /** Every write carries something, as the session that feeds the pipe sees to. */
  ghost predicate Solid<T>(steps: seq<Step<T>>) {
    forall i :: 0 <= i < |steps| && steps[i].Write? ==> steps[i].data != []
  }

  lemma {:induction false} FlattenMember<T>(queue: seq<seq<T>>, i: nat, y: T)
    requires i < |queue| && y in queue[i]
    ensures y in Flatten(queue)
    decreases i
  {
    if i > 0 { FlattenMember(queue[1..], i - 1, y); }
  }

  lemma OverflowOvertakes<T>(r: Run<T>, data: seq<T>) returns (x: T, y: T)
    requires Kept(r) && !r.overflowed && Chunked(r) && !r.pipe.closed && Full(r.pipe)
    requires data != [] && Distinct(r.accepted + data)
    ensures Waits(Next(r, Write(data)), x, y) && y in r.accepted && Before(r.accepted + data, y, x)
  {
    var queue, last := r.pipe.queue, |r.pipe.queue| - 1;
    x, y := data[0], queue[last][0];
    FlattenMember(queue[1..], last - 1, y);
    var front := r.delivered + InHand(r.reader) + r.pipe.buf;
    assert r.accepted == front + Flatten(queue);
    DistinctSplit(r.accepted, data, y);
    NotInFront(front, queue, y);
    assert y !in data;
    var k :| 0 <= k < |r.accepted| && r.accepted[k] == y;
    assert (r.accepted + data)[k] == y && (r.accepted + data)[|r.accepted|] == x;
  }

  lemma NotInFront<T>(front: seq<T>, queue: seq<seq<T>>, y: T)
    requires queue != [] && y in Flatten(queue[1..]) && Distinct(front + Flatten(queue))
    ensures y !in front && y !in queue[0] && y in front + Flatten(queue)
  {
    DistinctSplit(front, Flatten(queue), y);
    DistinctSplit(queue[0], Flatten(queue[1..]), y);
    assert y in Flatten(queue);
  }

  lemma NextChunked<T>(r: Run<T>, step: Step<T>)
    requires Enabled(r, step) && Chunked(r) && (step.Write? ==> step.data != [])
    ensures Chunked(Next(r, step))
  {
  }

  /** The run overflows at its first step. */
  lemma OverflowNow<T>(r: Run<T>, data: seq<T>, rest: seq<Step<T>>) returns (x: T, y: T)
    requires Kept(r) && Chunked(r) && !r.overflowed && !r.pipe.closed && Full(r.pipe) && data != []
    requires Legal(Next(r, Write(data)), rest) && Distinct(After(Next(r, Write(data)), rest).accepted)
    ensures var t := After(Next(r, Write(data)), rest); Overtakes(t, x, y) && Before(t.accepted, y, x)
  {
    var next := Next(r, Write(data));
    var all := After(next, rest).accepted;
    AcceptedGrows(next, rest);
    assert all == next.accepted + all[|next.accepted|..];
    DistinctSplit(next.accepted, all[|next.accepted|..], data[0]);
    x, y := OverflowOvertakes(r, data);
    RunOvertakes(next, rest, x, y);
    BeforeGrows(next.accepted, all, y, x);
  }

  lemma {:induction false} OverflowSeen<T>(r: Run<T>, steps: seq<Step<T>>) returns (x: T, y: T)
    requires Legal(r, steps) && Kept(r) && Chunked(r) && Solid(steps) && !r.overflowed
    requires After(r, steps).overflowed && Distinct(After(r, steps).accepted)
    ensures Overtakes(After(r, steps), x, y) && Before(After(r, steps).accepted, y, x)
    decreases |steps|
  {
    var next := Next(r, steps[0]);
    if next.overflowed {
      x, y := OverflowNow(r, steps[0].data, steps[1..]);
    } else {
      NextKeeps(r, steps[0]);
      NextChunked(r, steps[0]);
      x, y := OverflowSeen(next, steps[1..]);
    }
  }

  lemma BeforeGrows<T>(a: seq<T>, b: seq<T>, y: T, x: T)
    requires Before(a, y, x) && a <= b
    ensures Before(b, y, x)
  {
    var k, l :| 0 <= k < l < |a| && a[k] == y && a[l] == x;
    assert b[k] == y && b[l] == x;
  }

  lemma NotBefore<T>(s: seq<T>, i: nat, y: T)
    requires i < |s| && y !in s[..i] && Distinct(s)
    ensures !Before(s, y, s[i])
  {
    forall k, l | 0 <= k < l < |s| && s[l] == s[i] ensures s[k] != y {
      assert l == i;
      assert s[..i][k] == s[k];
    }
  }

  lemma OvertakenDiffers<T>(r: Run<T>, x: T, y: T)
    requires Overtakes(r, x, y) && Before(r.accepted, y, x) && Distinct(r.accepted)
    ensures Whole(r) != r.accepted
  {
    var i := Ahead(r, x, y);
    if Distinct(Whole(r)) { NotBefore(Whole(r), i, y); }
  }

  /** Where `x` stands in the whole, with no `y` before it. */
  lemma Ahead<T>(r: Run<T>, x: T, y: T) returns (i: nat)
    requires Overtakes(r, x, y)
    ensures i < |Whole(r)| && Whole(r)[i] == x && y !in Whole(r)[..i]
  {
    if Passed(r, x, y) {
      var j :| 0 <= j < |r.delivered| && r.delivered[j] == x && y !in r.delivered[..j];
      i := j;
      assert Whole(r)[..i] == r.delivered[..j];
    } else {
      var j :| 0 <= j < |r.pipe.buf| && r.pipe.buf[j] == x;
      i := |r.delivered| + |InHand(r.reader)| + j;
      assert Whole(r)[..i] == r.delivered + InHand(r.reader) + r.pipe.buf[..j];
    }
  }

  /** Over elements that are all different, the order is kept if and only if no write finds the channel full. */
  lemma OrderKeptIff<T>(steps: seq<Step<T>>)
    requires Legal(Fresh(), steps) && Solid(steps) && Distinct(After(Fresh(), steps).accepted)
    ensures Whole(After(Fresh(), steps)) == After(Fresh(), steps).accepted <==> !After(Fresh(), steps).overflowed
  {
    if After(Fresh(), steps).overflowed {
      var x, y := OverflowSeen(Fresh(), steps);
      OvertakenDiffers(After(Fresh(), steps), x, y);
    } else {
      OrderKept(steps);
    }
  }

  // ----- equal bytes told apart ----------------------------------------------------------------------------------

  /** Bytes with the positions at which they were written, counted from `n`. */
  function Tags<T>(data: seq<T>, n: nat): (out: seq<(T, nat)>)
    ensures |out| == |data|
    ensures forall i :: 0 <= i < |out| ==> out[i] == (data[i], n + i)
  {
    seq(|data|, i requires 0 <= i < |data| => (data[i], n + i))
  }

  function TagStep<T>(step: Step<T>, n: nat): Step<(T, nat)> {
    match step
    case Write(data) => Write(Tags(data, n))
    case Close => Close
    case ReadStart(room) => ReadStart(room)
    case Receive => Receive
    case Keep => Keep
  }

  function Size<T>(step: Step<T>): nat {
    if step.Write? then |step.data| else 0
  }

  /** The same run with every byte carrying its position. */
  function TagSteps<T>(steps: seq<Step<T>>, n: nat): seq<Step<(T, nat)>> {
    if |steps| == 0 then [] else [TagStep(steps[0], n)] + TagSteps(steps[1..], n + Size(steps[0]))
  }

  function Bare<T>(xs: seq<(T, nat)>): (out: seq<T>)
    ensures |out| == |xs|
    ensures forall i :: 0 <= i < |out| ==> out[i] == xs[i].0
  {
    seq(|xs|, i requires 0 <= i < |xs| => xs[i].0)
  }

  function BareQueue<T>(queue: seq<seq<(T, nat)>>): (out: seq<seq<T>>)
    ensures |out| == |queue|
    ensures forall i :: 0 <= i < |out| ==> out[i] == Bare(queue[i])
  {
    seq(|queue|, i requires 0 <= i < |queue| => Bare(queue[i]))
  }

  function BareReader<T>(reader: Reader<(T, nat)>): Reader<T> {
    match reader
    case Idle => Idle
    case Receiving(room) => Receiving(room)
    case Keeping(rest) => Keeping(Bare(rest))
  }

  /** The run with the positions dropped. */
  function BareRun<T>(r: Run<(T, nat)>): Run<T> {
    Run(Pipe(BareQueue(r.pipe.queue), Bare(r.pipe.buf), r.pipe.closed), BareReader(r.reader), Bare(r.accepted), Bare(r.delivered), r.overflowed)
  }

  lemma BareAppend<T>(a: seq<(T, nat)>, b: seq<(T, nat)>)
    ensures Bare(a + b) == Bare(a) + Bare(b)
  {
  }

  lemma BareCut<T>(a: seq<(T, nat)>, n: nat)
    requires n <= |a|
    ensures Bare(a[..n]) == Bare(a)[..n] && Bare(a[n..]) == Bare(a)[n..]
  {
  }

  lemma BareWrite<T>(r: Run<(T, nat)>, data: seq<T>, n: nat)
    ensures BareRun(Next(r, Write(Tags(data, n)))) == Next(BareRun(r), Write(data))
  {
    assert Bare(Tags(data, n)) == data;
    BareAppend(r.accepted, Tags(data, n));
    BareAppend(r.pipe.buf, Tags(data, n));
    assert BareQueue(r.pipe.queue + [Tags(data, n)]) == BareQueue(r.pipe.queue) + [data];
  }

  lemma BareRead<T>(r: Run<(T, nat)>, room: nat)
    requires r.reader.Idle?
    ensures BareRun(Next(r, ReadStart(room))) == Next(BareRun(r), ReadStart(room))
  {
    var n := Fit(room, r.pipe.buf);
    BareCut(r.pipe.buf, n);
    BareAppend(r.delivered, r.pipe.buf[..n]);
  }

  lemma BareReceive<T>(r: Run<(T, nat)>)
    requires r.reader.Receiving? && |r.pipe.queue| > 0
    ensures BareRun(Next(r, Receive)) == Next(BareRun(r), Receive)
  {
    var data := r.pipe.queue[0];
    var n := Fit(r.reader.room, data);
    BareCut(data, n);
    BareAppend(r.delivered, data[..n]);
    assert BareQueue(r.pipe.queue[1..]) == BareQueue(r.pipe.queue)[1..];
  }

  /** Positions make no difference to what the pipe does. */
  lemma BareNext<T>(r: Run<(T, nat)>, step: Step<T>, n: nat)
    requires Enabled(BareRun(r), step)
    ensures Enabled(r, TagStep(step, n)) && BareRun(Next(r, TagStep(step, n))) == Next(BareRun(r), step)
  {
    match step
    case Write(data) => BareWrite(r, data, n);
    case Close =>
    case ReadStart(room) => BareRead(r, room);
    case Receive => if |r.pipe.queue| > 0 { BareReceive(r); }
    case Keep => BareAppend(r.pipe.buf, r.reader.rest);
  }

  lemma {:induction false} BareAfter<T>(r: Run<(T, nat)>, steps: seq<Step<T>>, n: nat)
    requires Legal(BareRun(r), steps)
    ensures Legal(r, TagSteps(steps, n)) && BareRun(After(r, TagSteps(steps, n))) == After(BareRun(r), steps)
    decreases |steps|
  {
    if steps != [] {
      BareNext(r, steps[0], n);
      assert TagSteps(steps, n)[1..] == TagSteps(steps[1..], n + Size(steps[0]));
      BareAfter(Next(r, TagStep(steps[0], n)), steps[1..], n + Size(steps[0]));
    }
  }

  /** Positions go up, below `n`. */
  ghost predicate Rising<T>(xs: seq<(T, nat)>, n: nat) {
    && (forall i, j :: 0 <= i < j < |xs| ==> xs[i].1 < xs[j].1)
    && (forall i :: 0 <= i < |xs| ==> xs[i].1 < n)
  }

  lemma {:induction false} AcceptedRises<T>(r: Run<(T, nat)>, steps: seq<Step<T>>, n: nat)
    requires Legal(r, TagSteps(steps, n)) && Rising(r.accepted, n)
    ensures Distinct(After(r, TagSteps(steps, n)).accepted)
    decreases |steps|
  {
    if steps != [] {
      assert TagSteps(steps, n)[1..] == TagSteps(steps[1..], n + Size(steps[0]));
      AcceptedRises(Next(r, TagStep(steps[0], n)), steps[1..], n + Size(steps[0]));
    }
  }

  lemma {:induction false} TaggedSolid<T>(steps: seq<Step<T>>, n: nat)
    requires Solid(steps)
    ensures Solid(TagSteps(steps, n))
    decreases |steps|
  {
    if steps != [] { TaggedSolid(steps[1..], n + Size(steps[0])); }
  }

  /**
   In every interleaving whose writes are not empty, the bytes, told apart by where they were
   written, stand in the order they were accepted if and only if no write found the channel full.
   */
  lemma OrderExact<T>(steps: seq<Step<T>>)
    requires Legal(Fresh(), steps) && Solid(steps)
    ensures Legal(Fresh(), TagSteps(steps, 0))
    ensures var t := After(Fresh(), TagSteps(steps, 0));
            && BareRun(t) == After(Fresh(), steps)
            && (Whole(t) == t.accepted <==> !After(Fresh(), steps).overflowed)
  {
    assert BareRun(Fresh<(T, nat)>()) == Fresh<T>();
    BareAfter(Fresh(), steps, 0);
    AcceptedRises(Fresh(), steps, 0);
    TaggedSolid(steps, 0);
    OrderKeptIff(TagSteps(steps, 0));
  }
}
