/** What goes into the stdin pipe, and when everything that went in can still come out. */
module StdinPipeDrain {
  import opened Sequences
  import opened StdinPipe

  // ----- what was accepted ----------------------------------------------------------------------------------------

  /** The data of the writes made before the first Close. */
  function Submitted<T>(steps: seq<Step<T>>): seq<T>
    decreases |steps|
  {
    if steps == [] || steps[0].Close? then []
    else (if steps[0].Write? then steps[0].data else []) + Submitted(steps[1..])
  }

  function Taken<T>(r: Run<T>, step: Step<T>): seq<T> {
    if step.Write? && !r.pipe.closed then step.data else []
  }

  lemma AcceptsNext<T>(r: Run<T>, step: Step<T>)
    requires Enabled(r, step)
    ensures Next(r, step).accepted == r.accepted + Taken(r, step)
    ensures Next(r, step).pipe.closed <==> r.pipe.closed || step.Close?
  {
  }

  /** What `steps` submit to a pipe in this state. */
  function SubmittedTo<T>(r: Run<T>, steps: seq<Step<T>>): seq<T> {
    if r.pipe.closed then [] else Submitted(steps)
  }

  lemma SubmitsNext<T>(r: Run<T>, steps: seq<Step<T>>)
    requires steps != [] && Enabled(r, steps[0])
    ensures SubmittedTo(r, steps) == Taken(r, steps[0]) + SubmittedTo(Next(r, steps[0]), steps[1..])
  {
    AcceptsNext(r, steps[0]);
  }

  lemma {:induction false} AcceptsFrom<T>(r: Run<T>, steps: seq<Step<T>>)
    requires Legal(r, steps)
    ensures After(r, steps).accepted == r.accepted + SubmittedTo(r, steps)
    decreases |steps|
  {
    if steps != [] {
      var t := Next(r, steps[0]);
      AcceptsNext(r, steps[0]);
      SubmitsNext(r, steps);
      AcceptsFrom(t, steps[1..]);
      assert r.accepted + Taken(r, steps[0]) + SubmittedTo(t, steps[1..]) == r.accepted + (Taken(r, steps[0]) + SubmittedTo(t, steps[1..]));
    }
  }

  /** In every interleaving the accepted bytes are those written before Close, in the order of the writes. */
  lemma AcceptedIsSubmitted<T>(steps: seq<Step<T>>)
    requires Legal(Fresh(), steps)
    ensures After(Fresh(), steps).accepted == Submitted(steps)
  {
    AcceptsFrom(Fresh(), steps);
  }

  // ----- a waiting reader ------------------------------------------------------------------------------------------

  /** A reader waits on an empty channel only while nothing is buffered. */
  ghost predicate Awake<T>(r: Run<T>) {
    r.reader.Receiving? && r.pipe.queue == [] ==> r.pipe.buf == []
  }

  lemma {:induction false} StaysAwake<T>(r: Run<T>, steps: seq<Step<T>>)
    requires Legal(r, steps) && Awake(r)
    ensures Awake(After(r, steps))
    decreases |steps|
  {
    if steps != [] { StaysAwake(Next(r, steps[0]), steps[1..]); }
  }

  /** In every interleaving, a reader with nothing to receive from an open channel has been given every byte accepted. */
  lemma NoLostWakeup<T>(steps: seq<Step<T>>)
    requires Legal(Fresh(), steps)
    ensures var r := After(Fresh(), steps);
            r.reader.Receiving? && !Enabled(r, Receive) ==> multiset(r.delivered) == multiset(Submitted(steps))
  {
    StaysAwake(Fresh<T>(), steps);
    BytesConserved(steps);
    AcceptedIsSubmitted(steps);
  }

  // ----- draining --------------------------------------------------------------------------------------------------

  ghost predicate ReaderOnly<T>(steps: seq<Step<T>>) {
    forall i :: 0 <= i < |steps| ==> !steps[i].Write? && !steps[i].Close?
  }

  ghost predicate Drained<T>(r: Run<T>) {
    r.pipe.queue == [] && r.pipe.buf == [] && InHand(r.reader) == []
  }

  ghost predicate Drains<T>(r: Run<T>, more: seq<Step<T>>) {
    Legal(r, more) && ReaderOnly(more) && Drained(After(r, more))
  }

  /** The channel is open, or holds at most the one chunk a read under way will receive. */
  predicate Reachable<T>(r: Run<T>) {
    !r.pipe.closed || |r.pipe.queue| <= if r.reader.Receiving? then 1 else 0
  }

  /** The reader's next step towards draining the pipe. */
  function Turn<T>(r: Run<T>): Step<T> {
    match r.reader
    case Keeping(_) => Keep
    case Receiving(_) => Receive
    case Idle => ReadStart(|r.pipe.buf|)
  }

  function Stage<T>(r: Run<T>): nat {
    match r.reader
    case Keeping(_) => 3
    case Receiving(_) => 0
    case Idle => if |r.pipe.buf| > 0 then 2 else 1
  }

  lemma TurnWorks<T>(r: Run<T>)
    requires Awake(r) && Reachable(r) && !Drained(r)
    ensures Enabled(r, Turn(r))
    ensures var t := Next(r, Turn(r));
            && Awake(t) && Reachable(t)
            && (|t.pipe.queue| < |r.pipe.queue| || (|t.pipe.queue| == |r.pipe.queue| && Stage(t) < Stage(r)))
  {
  }

  lemma {:induction false} DrainFrom<T>(r: Run<T>) returns (more: seq<Step<T>>)
    requires Awake(r) && Reachable(r)
    ensures Drains(r, more)
    decreases |r.pipe.queue|, Stage(r)
  {
    if Drained(r) {
      more := [];
    } else {
      TurnWorks(r);
      var rest := DrainFrom(Next(r, Turn(r)));
      more := [Turn(r)] + rest;
      assert more[1..] == rest;
    }
  }

  lemma {:induction false} Stranded<T>(r: Run<T>, more: seq<Step<T>>)
    requires !Reachable(r) && Legal(r, more) && ReaderOnly(more)
    ensures After(r, more).pipe.queue != []
    decreases |more|
  {
    if more != [] { Stranded(Next(r, more[0]), more[1..]); }
  }

  /** In every interleaving, reading on can empty the pipe exactly when it is open or at most a receive under way is left to be served. */
  lemma DrainsIff<T>(steps: seq<Step<T>>)
    requires Legal(Fresh(), steps)
    ensures (exists more :: Drains(After(Fresh(), steps), more)) <==> Reachable(After(Fresh(), steps))
  {
    var r := After(Fresh(), steps);
    StaysAwake(Fresh(), steps);
    if Reachable(r) {
      var more := DrainFrom(r);
      assert Drains(r, more);
    }
    if more :| Drains(r, more) {
      if !Reachable(r) { Stranded(r, more); }
    }
  }

  /** A chunk written, then Close, then any reading: the chunk never comes out. */
  lemma CloseStrands<T>(data: seq<T>, more: seq<Step<T>>)
    requires Legal(After(Fresh(), [Write(data), Close]), more) && ReaderOnly(more)
    ensures After(After(Fresh(), [Write(data), Close]), more).pipe.queue != []
  {
    var steps := [Write(data), Close];
    assert steps[1..] == [Close] && steps[1..][1..] == [];
    var wrote := Next(Fresh<T>(), steps[0]);
    var shut := Next(wrote, Close);
    assert After(wrote, [Close]) == After(shut, [Close][1..]) == shut;
    Stranded(After(Fresh(), steps), more);
  }
}
