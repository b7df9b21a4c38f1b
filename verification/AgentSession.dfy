/**
 The agent's reconnect loop, its per-session watchers and context cancellation as a step system.

 The loop and every watcher share one connection field. A socket is open from the moment it is
 dialed until somebody closes it through that field.
 */
module AgentSession {
  import opened Sequences

  type Socket = nat

  datatype Watcher = Waiting | SawCancel | Committed | Exited

  datatype Session = Session(socket: Socket, done: bool, watcher: Watcher)

  /** Where the Start loop is. */
  datatype Loop =
    | Top
    | Closing
    | Connecting
    | Dialed(socket: Socket)
    | Entering
    | Bound(socket: Socket)
    | Reading(session: nat)
    | BackingOff
    | Quitting
    | Returning
    | Returned

  /** One close made by a watcher: whose watcher, and which socket the field held. */
  datatype WatcherClose = WatcherClose(session: nat, socket: Socket)

  datatype Agent = Agent(
    cancelled: bool,
    stopped: bool,
    conn: Option<Socket>,
    open: set<Socket>,
    dialed: nat,
    loop: Loop,
    sessions: seq<Session>,
    closes: seq<WatcherClose>)

  const Started: Agent := Agent(false, false, None, {}, 0, Top, [], [])

  datatype Step =
    | Cancel
    | Stop
    | Check
    | Release
    | DialFails
    | DialSucceeds
    | Assign
    | Bind
    | Spawn
    | SessionEnds
    | GiveUp
    | Retry
    | Quit
    | Return
    | WatcherSeesDone(session: nat)
    | WatcherSeesCancel(session: nat)
    | WatcherRechecks(session: nat)
    | WatcherCloses(session: nat)

  predicate Enabled(a: Agent, step: Step) {
    match step
    case Cancel => true
    case Stop => true
    case Check => a.loop == Top
    case Release => a.loop == Closing
    case DialFails => a.loop == Connecting
    case DialSucceeds => a.loop == Connecting
    case Assign => a.loop.Dialed?
    case Bind => a.loop == Entering
    case Spawn => a.loop.Bound?
    case SessionEnds => a.loop.Reading? && a.loop.session < |a.sessions|
    case GiveUp => a.loop == BackingOff && (a.cancelled || a.stopped)
    case Retry => a.loop == BackingOff
    case Quit => a.loop == Quitting
    case Return => a.loop == Returning
    case WatcherSeesDone(k) => k < |a.sessions| && a.sessions[k].watcher == Waiting && a.sessions[k].done
    case WatcherSeesCancel(k) => k < |a.sessions| && a.sessions[k].watcher == Waiting && a.cancelled
    case WatcherRechecks(k) => k < |a.sessions| && a.sessions[k].watcher == SawCancel
    case WatcherCloses(k) => k < |a.sessions| && a.sessions[k].watcher == Committed
  }

  /** Closes whatever the field holds and clears it, in one critical section. */
  function Closed(a: Agent): Agent {
    match a.conn
    case None => a
    case Some(s) => a.(conn := None, open := a.open - {s})
  }

  function Watched(a: Agent, k: nat, w: Watcher): Agent
    requires k < |a.sessions|
  {
    a.(sessions := a.sessions[k := a.sessions[k].(watcher := w)])
  }

  function Next(a: Agent, step: Step): Agent
    requires Enabled(a, step)
  {
    match step
    case Cancel => a.(cancelled := true)
    case Stop => a.(stopped := true)
    case Check => a.(loop := if a.cancelled || a.stopped then Quitting else Closing)
    case Release => Closed(a).(loop := Connecting)
    case DialFails => a.(loop := BackingOff)
    case DialSucceeds => a.(loop := Dialed(a.dialed), open := a.open + {a.dialed}, dialed := a.dialed + 1)
    case Assign => a.(loop := Entering, conn := Some(a.loop.socket))
    case Bind => a.(loop := match a.conn case None => BackingOff case Some(s) => Bound(s))
    case Spawn => a.(loop := Reading(|a.sessions|), sessions := a.sessions + [Session(a.loop.socket, false, Waiting)])
    case SessionEnds =>
      var k := a.loop.session;
      a.(loop := BackingOff, sessions := a.sessions[k := a.sessions[k].(done := true)])
    case GiveUp => a.(loop := Returning)
    case Retry => a.(loop := Top)
    case Quit => Closed(a).(loop := Returning)
    case Return => Closed(a).(loop := Returned)
    case WatcherSeesDone(k) => Watched(a, k, Exited)
    case WatcherSeesCancel(k) => Watched(a, k, SawCancel)
    case WatcherRechecks(k) => Watched(a, k, if a.sessions[k].done then Exited else Committed)
    case WatcherCloses(k) =>
      var b := Closed(Watched(a, k, Exited));
      match a.conn
      case None => b
      case Some(s) => b.(closes := a.closes + [WatcherClose(k, s)])
  }

  ghost predicate Legal(a: Agent, steps: seq<Step>)
    decreases |steps|
  {
    steps == [] || (Enabled(a, steps[0]) && Legal(Next(a, steps[0]), steps[1..]))
  }

  ghost function After(a: Agent, steps: seq<Step>): Agent
    requires Legal(a, steps)
    decreases |steps|
  {
    if steps == [] then a else After(Next(a, steps[0]), steps[1..])
  }

  // ----- what every step keeps -----------------------------------------------------------------------------

  ghost function Held(conn: Option<Socket>): set<Socket> {
    match conn
    case None => {}
    case Some(s) => {s}
  }

  ghost function InHand(loop: Loop): set<Socket> {
    if loop.Dialed? then {loop.socket} else {}
  }

  /** Every open socket is the field's, or the one just dialed while the field is empty. */
  ghost predicate OneOwner(a: Agent) {
    && a.open == Held(a.conn) + InHand(a.loop)
    && (a.loop.Connecting? || a.loop.Dialed? || a.loop.Returned? ==> a.conn == None)
    && (a.loop.Entering? ==> a.conn.Some?)
    && (a.loop.Bound? ==> a.conn == Some(a.loop.socket))
    && (a.conn.Some? ==> a.conn.value < a.dialed)
    && (a.loop.Dialed? ==> a.loop.socket < a.dialed)
  }

  /** Sessions end in order, on ever newer sockets; only the one being read is not done. */
  ghost predicate InOrder(a: Agent) {
    && (forall k :: 0 <= k < |a.sessions| && !a.sessions[k].done ==> a.loop == Reading(k))
    && (a.loop.Reading? ==> a.loop.session == |a.sessions| - 1 && !a.sessions[a.loop.session].done)
    && (forall i, j :: 0 <= i < j < |a.sessions| ==> a.sessions[i].socket < a.sessions[j].socket)
    && (forall k :: 0 <= k < |a.sessions| ==> a.sessions[k].socket < a.dialed)
    && (a.loop.Dialed? || a.loop.Bound? ==> forall k :: 0 <= k < |a.sessions| ==> a.sessions[k].socket < a.loop.socket)
    && (a.loop.Entering? && a.conn.Some? ==> forall k :: 0 <= k < |a.sessions| ==> a.sessions[k].socket < a.conn.value)
  }

  /** The field holds nothing or the socket of session `k`. */
  ghost predicate HoldsAtMost(a: Agent, k: nat)
    requires k < |a.sessions|
  {
    a.conn == None || a.conn == Some(a.sessions[k].socket)
  }

  /** The loop is past dialing for good once the context is cancelled. */
  predicate Winding(loop: Loop) {
    loop.Reading? || loop.BackingOff? || loop.Top? || loop.Quitting? || loop.Returning? || loop.Returned?
  }

  /** A watcher that will close has only its own session's socket within reach. */
  ghost predicate Harmless(a: Agent, k: nat)
    requires k < |a.sessions|
  {
    && (a.sessions[k].watcher == SawCancel ==> a.cancelled)
    && (a.sessions[k].watcher == Committed ==> a.cancelled && k == |a.sessions| - 1 && HoldsAtMost(a, k) && Winding(a.loop))
  }

  ghost predicate Watchers(a: Agent) {
    && (forall k :: 0 <= k < |a.sessions| ==> Harmless(a, k))
    && (a.loop.Reading? ==>
          && a.loop.session < |a.sessions| && HoldsAtMost(a, a.loop.session)
          && (a.sessions[a.loop.session].watcher == Exited ==> a.conn == None))
    && (forall i :: 0 <= i < |a.closes| ==> a.closes[i].session < |a.sessions| && a.closes[i].socket == a.sessions[a.closes[i].session].socket)
  }

  /** The loop is on its way out only when it was told to be. */
  ghost predicate Dutiful(a: Agent) {
    a.loop.Quitting? || a.loop.Returning? || a.loop.Returned? ==> a.cancelled || a.stopped
  }

  ghost predicate Inv(a: Agent) {
    OneOwner(a) && InOrder(a) && Watchers(a) && Dutiful(a)
  }

  lemma WatchedKeeps(a: Agent, k: nat, w: Watcher)
    requires Inv(a) && k < |a.sessions|
    requires w == SawCancel ==> a.cancelled
    requires w == Committed ==> a.cancelled && !a.sessions[k].done
    requires w == Exited ==> a.sessions[k].done || a.conn == None
    ensures Inv(Watched(a, k, w))
  {
    var b := Watched(a, k, w);
    assert forall j :: 0 <= j < |a.sessions| ==> b.sessions[j].socket == a.sessions[j].socket && b.sessions[j].done == a.sessions[j].done;
    forall j | 0 <= j < |b.sessions| ensures Harmless(b, j) { assert Harmless(a, j); }
  }

  lemma ClosedKeeps(a: Agent)
    requires Inv(a) && !a.loop.Entering? && !a.loop.Bound?
    ensures Inv(Closed(a)) && Closed(a).conn == None
  {
    forall j | 0 <= j < |a.sessions| ensures Harmless(Closed(a), j) { assert Harmless(a, j); }
  }

  /** Moves between places where no socket changes hands. */
  lemma MoveKeeps(a: Agent, loop: Loop)
    requires Inv(a) && !a.loop.Reading? && !a.loop.Dialed?
    requires loop.Top? || loop.BackingOff? || ((loop.Quitting? || loop.Returning?) && (a.cancelled || a.stopped)) || (loop.Closing? && !a.cancelled)
          || (a.conn == None && loop.Returned? && (a.cancelled || a.stopped)) || (a.conn == None && loop.Connecting? && a.loop.Closing?)
    ensures Inv(a.(loop := loop))
  {
    forall j | 0 <= j < |a.sessions| ensures Harmless(a.(loop := loop), j) { assert Harmless(a, j); }
  }

  lemma SessionEndsKeeps(a: Agent)
    requires Inv(a) && Enabled(a, SessionEnds)
    ensures Inv(Next(a, SessionEnds))
  {
    var b := Next(a, SessionEnds);
    forall j | 0 <= j < |b.sessions| ensures Harmless(b, j) { assert Harmless(a, j); }
  }

  lemma SpawnKeeps(a: Agent)
    requires Inv(a) && Enabled(a, Spawn)
    ensures Inv(Next(a, Spawn))
  {
    var b := Next(a, Spawn);
    assert forall j :: 0 <= j < |a.sessions| ==> b.sessions[j] == a.sessions[j];
    forall j | 0 <= j < |a.sessions| ensures Harmless(b, j) { assert Harmless(a, j); }
  }

  lemma DialKeeps(a: Agent, step: Step)
    requires Inv(a) && Enabled(a, step) && (step == DialSucceeds || step == Assign || step == Bind)
    ensures Inv(Next(a, step))
  {
    forall j | 0 <= j < |a.sessions| ensures Harmless(Next(a, step), j) { assert Harmless(a, j); }
  }

  lemma WatcherClosesKeeps(a: Agent, k: nat)
    requires Inv(a) && Enabled(a, WatcherCloses(k))
    ensures Inv(Next(a, WatcherCloses(k)))
  {
    assert Harmless(a, k);
    ClosedKeeps(a);
    WatchedKeeps(Closed(a), k, Exited);
    var b := Next(a, WatcherCloses(k));
    forall j | 0 <= j < |b.sessions| ensures Harmless(b, j) { assert Harmless(Watched(Closed(a), k, Exited), j); }
  }

  lemma FlagKeeps(a: Agent, b: Agent)
    requires Inv(a) && b == a.(cancelled := b.cancelled, stopped := b.stopped) && (a.cancelled ==> b.cancelled) && (a.stopped ==> b.stopped)
    ensures Inv(b)
  {
    forall j | 0 <= j < |a.sessions| ensures Harmless(b, j) { assert Harmless(a, j); }
  }

  /** Every step of the loop, of the context and of any watcher keeps the invariant. */
  lemma NextKeeps(a: Agent, step: Step)
    requires Inv(a) && Enabled(a, step)
    ensures Inv(Next(a, step))
  {
    match step
    case Cancel => FlagKeeps(a, Next(a, step));
    case Stop => FlagKeeps(a, Next(a, step));
    case Check => MoveKeeps(a, Next(a, step).loop);
    case Release => ClosedKeeps(a); MoveKeeps(Closed(a), Connecting);
    case DialFails => MoveKeeps(a, BackingOff);
    case DialSucceeds => DialKeeps(a, step);
    case Assign => DialKeeps(a, step);
    case Bind => DialKeeps(a, step);
    case Spawn => SpawnKeeps(a);
    case SessionEnds => SessionEndsKeeps(a);
    case GiveUp => MoveKeeps(a, Returning);
    case Retry => MoveKeeps(a, Top);
    case Quit => ClosedKeeps(a); MoveKeeps(Closed(a), Returning);
    case Return => ClosedKeeps(a); MoveKeeps(Closed(a), Returned);
    case WatcherSeesDone(k) => WatchedKeeps(a, k, Exited);
    case WatcherSeesCancel(k) => WatchedKeeps(a, k, SawCancel);
    case WatcherRechecks(k) =>
      assert Harmless(a, k);
      WatchedKeeps(a, k, if a.sessions[k].done then Exited else Committed);
    case WatcherCloses(k) => WatcherClosesKeeps(a, k);
  }

  lemma {:induction false} RunKeeps(a: Agent, steps: seq<Step>)
    requires Inv(a) && Legal(a, steps)
    ensures Inv(After(a, steps))
    decreases |steps|
  {
    if steps != [] {
      NextKeeps(a, steps[0]);
      RunKeeps(Next(a, steps[0]), steps[1..]);
    }
  }

  /** In every interleaving at most one socket is open, and none once Start has returned. */
  lemma OneSocket(steps: seq<Step>)
    requires Legal(Started, steps)
    ensures |After(Started, steps).open| <= 1
    ensures After(Started, steps).loop == Returned ==> After(Started, steps).open == {}
  {
    RunKeeps(Started, steps);
    var a := After(Started, steps);
    if a.conn.Some? { assert a.open == {a.conn.value}; }
  }

  /** In every interleaving a watcher closes its own session's socket only, and no two sessions share one. */
  lemma WatchersCloseTheirOwn(steps: seq<Step>, i: nat)
    requires Legal(Started, steps) && i < |After(Started, steps).closes|
    ensures var a := After(Started, steps);
            && a.closes[i].session < |a.sessions|
            && forall k :: 0 <= k < |a.sessions| ==> (a.sessions[k].socket == a.closes[i].socket <==> k == a.closes[i].session)
  {
    RunKeeps(Started, steps);
  }

  /** The branch of handleConnection for a missing connection is never taken. */
  lemma AlwaysAConnection(steps: seq<Step>)
    requires Legal(Started, steps) && After(Started, steps).loop == Entering
    ensures After(Started, steps).conn.Some?
  {
    RunKeeps(Started, steps);
  }

  /** Once a watcher has decided to close, the loop dials no more, whatever happens next. */
  lemma {:induction false} NoDialAfterCommit(steps: seq<Step>, more: seq<Step>, k: nat)
    requires Legal(Started, steps) && k < |After(Started, steps).sessions|
    requires After(Started, steps).sessions[k].watcher == Committed && Legal(After(Started, steps), more)
    ensures After(After(Started, steps), more).dialed == After(Started, steps).dialed
  {
    RunKeeps(Started, steps);
    assert Harmless(After(Started, steps), k);
    WindsDown(After(Started, steps), more);
  }

  lemma {:induction false} WindsDown(a: Agent, steps: seq<Step>)
    requires a.cancelled && Winding(a.loop) && Legal(a, steps)
    ensures After(a, steps).dialed == a.dialed
    decreases |steps|
  {
    if steps != [] { WindsDown(Next(a, steps[0]), steps[1..]); }
  }

  // ----- the loop goes on ----------------------------------------------------------------------------------------

  /** Start returns, or sets out to, only after cancellation or Stop. */
  lemma StopsOnlyWhenTold(steps: seq<Step>)
    requires Legal(Started, steps)
    ensures var a := After(Started, steps); a.loop.Quitting? || a.loop.Returning? || a.loop.Returned? ==> a.cancelled || a.stopped
  {
    RunKeeps(Started, steps);
  }

  ghost predicate Leads(a: Agent, steps: seq<Step>, b: Agent) {
    Legal(a, steps) && After(a, steps) == b
  }

  lemma First(a: Agent, step: Step, steps: seq<Step>, b: Agent)
    requires Enabled(a, step) && Leads(Next(a, step), steps, b)
    ensures Leads(a, [step] + steps, b)
  {
    assert ([step] + steps)[1..] == steps;
  }

  lemma {:induction false} Then(a: Agent, s: seq<Step>, m: Agent, t: seq<Step>, b: Agent)
    requires Leads(a, s, m) && Leads(m, t, b)
    ensures Leads(a, s + t, b)
    decreases |s|
  {
    if s == [] {
      assert s + t == t;
    } else {
      Then(Next(a, s[0]), s[1..], m, t, b);
      First(a, s[0], s[1..] + t, b);
      assert [s[0]] + (s[1..] + t) == s + t;
    }
  }

  /** Neither cancelled nor stopped. */
  ghost predicate Serving(a: Agent) {
    Inv(a) && !a.cancelled && !a.stopped
  }

  /** One more step keeps serving. */
  lemma Onward(a: Agent, step: Step)
    requires Serving(a) && Enabled(a, step) && !step.Cancel? && !step.Stop?
    ensures Serving(Next(a, step))
  {
    NextKeeps(a, step);
  }

  /** From the top of the loop, a dial and a session. */
  lemma Connects(a: Agent) returns (steps: seq<Step>, b: Agent)
    requires Serving(a) && a.loop == Top
    ensures Leads(a, steps, b) && Serving(b)
    ensures b.loop == Reading(|a.sessions|) && |b.sessions| == |a.sessions| + 1 && b.dialed == a.dialed + 1
  {
    var a1 := Next(a, Check);
    Onward(a, Check);
    var a2 := Next(a1, Release);
    Onward(a1, Release);
    var a3 := Next(a2, DialSucceeds);
    Onward(a2, DialSucceeds);
    var a4 := Next(a3, Assign);
    Onward(a3, Assign);
    var a5 := Next(a4, Bind);
    Onward(a4, Bind);
    b := Next(a5, Spawn);
    Onward(a5, Spawn);
    First(a5, Spawn, [], b);
    First(a4, Bind, [Spawn] + [], b);
    First(a3, Assign, [Bind] + ([Spawn] + []), b);
    First(a2, DialSucceeds, [Assign] + ([Bind] + ([Spawn] + [])), b);
    First(a1, Release, [DialSucceeds] + ([Assign] + ([Bind] + ([Spawn] + []))), b);
    First(a, Check, [Release] + ([DialSucceeds] + ([Assign] + ([Bind] + ([Spawn] + [])))), b);
    steps := [Check] + ([Release] + ([DialSucceeds] + ([Assign] + ([Bind] + ([Spawn] + [])))));
  }

  /** How many steps of its own the loop is from its top. */
  function Distance(loop: Loop): nat {
    match loop
    case Closing => 7
    case Connecting => 6
    case Dialed(_) => 5
    case Entering => 4
    case Bound(_) => 3
    case Reading(_) => 2
    case BackingOff => 1
    case _ => 0
  }

  /** The loop's own next step towards its top. */
  function Homeward(loop: Loop): Step {
    match loop
    case Closing => Release
    case Connecting => DialFails
    case Dialed(_) => Assign
    case Entering => Bind
    case Bound(_) => Spawn
    case Reading(_) => SessionEnds
    case _ => Retry
  }

  lemma {:induction false} BackToTop(a: Agent) returns (steps: seq<Step>, b: Agent)
    requires Serving(a)
    ensures Leads(a, steps, b) && Serving(b) && b.loop == Top && |b.sessions| >= |a.sessions| && b.dialed >= a.dialed
    decreases Distance(a.loop)
  {
    if a.loop == Top {
      steps, b := [], a;
    } else {
      var step := Homeward(a.loop);
      Onward(a, step);
      var rest;
      rest, b := BackToTop(Next(a, step));
      First(a, step, rest, b);
      steps := [step] + rest;
    }
  }

  /** From every state reached without cancellation or Stop, the loop can dial once more and start one more session. */
  lemma Reconnects(before: seq<Step>) returns (steps: seq<Step>)
    requires Legal(Started, before) && !After(Started, before).cancelled && !After(Started, before).stopped
    ensures var a := After(Started, before);
            && Legal(a, steps)
            && After(a, steps).dialed > a.dialed && |After(a, steps).sessions| > |a.sessions| && After(a, steps).loop.Reading?
            && forall i :: 0 <= i < |steps| ==> !steps[i].Cancel? && !steps[i].Stop?
  {
    RunKeeps(Started, before);
    var a := After(Started, before);
    var home, top := BackToTop(a);
    var dial, b := Connects(top);
    Then(a, home, top, dial, b);
    steps := home + dial;
    Unflagged(a, steps);
  }

  /** A run that ends without cancellation or Stop had neither in it. */
  lemma {:induction false} Unflagged(a: Agent, steps: seq<Step>)
    requires Legal(a, steps) && !After(a, steps).cancelled && !After(a, steps).stopped
    ensures !a.cancelled && !a.stopped && forall i :: 0 <= i < |steps| ==> !steps[i].Cancel? && !steps[i].Stop?
    decreases |steps|
  {
    if steps != [] {
      Unflagged(Next(a, steps[0]), steps[1..]);
      assert forall i :: 1 <= i < |steps| ==> steps[i] == steps[1..][i - 1];
    }
  }

  /** There is no bound on how often the agent reconnects: for every n some run has n sessions, each on its own socket. */
  lemma {:induction false} AnyNumberOfSessions(n: nat) returns (steps: seq<Step>)
    ensures Legal(Started, steps) && |After(Started, steps).sessions| == n && After(Started, steps).dialed == n
    ensures !After(Started, steps).cancelled && !After(Started, steps).stopped
    ensures if n == 0 then steps == [] else After(Started, steps).loop == Reading(n - 1)
    decreases n
  {
    steps := [];
    if n > 0 {
      var before := AnyNumberOfSessions(n - 1);
      RunKeeps(Started, before);
      var a := After(Started, before);
      var home, top := [], a;
      if n > 1 {
        var ended := Next(a, SessionEnds);
        Onward(a, SessionEnds);
        top := Next(ended, Retry);
        Onward(ended, Retry);
        First(ended, Retry, [], top);
        First(a, SessionEnds, [Retry] + [], top);
        home := [SessionEnds] + ([Retry] + []);
      }
      var dial, b := Connects(top);
      Then(a, home, top, dial, b);
      Then(Started, before, a, home + dial, b);
      steps := before + (home + dial);
    }
  }

  // ----- and it ends ------------------------------------------------------------------------------------------------

  /** Once cancelled, the session's own watcher can always close the socket being read, which is what ends the read. */
  lemma CancelUnblocks(before: seq<Step>) returns (steps: seq<Step>)
    requires Legal(Started, before) && After(Started, before).loop.Reading? && After(Started, before).cancelled
    ensures var a := After(Started, before);
            && Legal(a, steps) && After(a, steps).open == {} && After(a, steps).loop == a.loop
            && forall i :: 0 <= i < |steps| ==> steps[i] in {WatcherSeesCancel(a.loop.session), WatcherRechecks(a.loop.session), WatcherCloses(a.loop.session)}
  {
    RunKeeps(Started, before);
    var a := After(Started, before);
    steps := Unblock(a);
  }

  /** How many steps the session's watcher is from being done. */
  function Pending(w: Watcher): nat {
    match w
    case Waiting => 3
    case SawCancel => 2
    case Committed => 1
    case Exited => 0
  }

  lemma {:induction false} Unblock(a: Agent) returns (steps: seq<Step>)
    requires Inv(a) && a.loop.Reading? && a.cancelled
    ensures Legal(a, steps) && After(a, steps).open == {} && After(a, steps).loop == a.loop
    ensures forall i :: 0 <= i < |steps| ==> steps[i] in {WatcherSeesCancel(a.loop.session), WatcherRechecks(a.loop.session), WatcherCloses(a.loop.session)}
    decreases Pending(a.sessions[a.loop.session].watcher)
  {
    var k := a.loop.session;
    var w := a.sessions[k].watcher;
    steps := [];
    if w != Exited {
      var step := match w case Waiting => WatcherSeesCancel(k) case SawCancel => WatcherRechecks(k) case _ => WatcherCloses(k);
      NextKeeps(a, step);
      var rest := Unblock(Next(a, step));
      First(a, step, rest, After(Next(a, step), rest));
      steps := [step] + rest;
    }
  }

  /** The loop's own next step on the way out. */
  function Outward(loop: Loop): Step {
    match loop
    case Top => Check
    case BackingOff => GiveUp
    case Quitting => Quit
    case Returning => Return
    case _ => Homeward(loop)
  }

  function ToExit(loop: Loop): nat {
    match loop
    case Returned => 0
    case Returning => 1
    case Quitting => 2
    case BackingOff => 2
    case Top => 3
    case _ => 3 + Distance(loop)
  }

  lemma {:induction false} Exits(a: Agent) returns (steps: seq<Step>)
    requires Inv(a) && a.cancelled
    ensures Legal(a, steps) && After(a, steps).loop == Returned && After(a, steps).open == {}
    decreases ToExit(a.loop)
  {
    steps := [];
    if a.loop != Returned {
      var step := Outward(a.loop);
      NextKeeps(a, step);
      var rest := Exits(Next(a, step));
      First(a, step, rest, After(Next(a, step), rest));
      steps := [step] + rest;
    }
  }

  /** From every state, cancellation lets Start return, with every socket closed. */
  lemma CancelReturns(before: seq<Step>) returns (steps: seq<Step>)
    requires Legal(Started, before)
    ensures var a := After(Started, before);
            steps != [] && steps[0] == Cancel && Legal(a, steps) && After(a, steps).loop == Returned && After(a, steps).open == {}
  {
    RunKeeps(Started, before);
    var a := After(Started, before);
    NextKeeps(a, Cancel);
    var rest := Exits(Next(a, Cancel));
    First(a, Cancel, rest, After(Next(a, Cancel), rest));
    steps := [Cancel] + rest;
  }
}
