/** Round-robin selection is fair in every interleaving, with the operations split at their locks. */
module RegistryFairInterleaving {
  import opened Sequences
  import opened RegistryKeys
  import opened Registry
  import opened RegistryRuns
  import opened RegistryFairness
  import opened RegistryCounters
  import opened RegistryInterleaving

  /** The run is possible, and in all its states exactly `ids` are authorised for `cr` on `p`. */
  ghost predicate SteadyActs(trust: Trust, s: Sys, acts: seq<Act>, p: string, cr: string, ids: seq<ConnId>)
    decreases |acts|
  {
    && Authorised(s.reg, p, cr) == ids
    && (acts != [] ==> Enabled(s, acts[0]) && SteadyActs(trust, Next(trust, s, acts[0]), acts[1..], p, cr, ids))
  }

  /** The step completes a GetForCR for the pair. */
  ghost predicate Completes(s: Sys, a: Act, p: string, cr: string) {
    a.ScanEnd? && s.lock.Scan? && s.lock.plane == p && s.lock.cr == cr
  }

  /** The connections that the GetForCR calls for the pair pick, in the order they complete. */
  ghost function ActPicks(trust: Trust, s: Sys, acts: seq<Act>, p: string, cr: string): seq<ConnId>
    requires Legal(trust, s, acts)
    decreases |acts|
  {
    if acts == [] then []
    else
      (if Completes(s, acts[0], p, cr) && s.lock.found != [] then [Rotate(s.reg, CounterKey(p, cr), s.lock.found).choice.value] else [])
      + ActPicks(trust, Next(trust, s, acts[0]), acts[1..], p, cr)
  }

  /** How many GetForCR calls for the pair the run completes. */
  ghost function Completed(trust: Trust, s: Sys, acts: seq<Act>, p: string, cr: string): nat
    requires Legal(trust, s, acts)
    decreases |acts|
  {
    if acts == [] then 0
    else (if Completes(s, acts[0], p, cr) then 1 else 0) + Completed(trust, Next(trust, s, acts[0]), acts[1..], p, cr)
  }

  lemma {:induction false} SteadyIsLegal(trust: Trust, s: Sys, acts: seq<Act>, p: string, cr: string, ids: seq<ConnId>)
    requires SteadyActs(trust, s, acts, p, cr, ids)
    ensures Legal(trust, s, acts)
    decreases |acts|
  {
    if acts != [] { SteadyIsLegal(trust, Next(trust, s, acts[0]), acts[1..], p, cr, ids); }
  }

  // ----- what the lock holder has yet to see -------------------------------------------------------------------

  ghost predicate Within(ids: seq<ConnId>, todo: seq<ConnId>) {
    forall id :: id in ids ==> id in todo
  }

  /**
   A scan for the pair will have found exactly the authorised connections; a clean-up looking at the
   pair still has all of them before it.
   */
  ghost predicate Ahead(s: Sys, p: string, cr: string, ids: seq<ConnId>) {
    match s.lock
    case Free => true
    case Leaving(_, _, _) => true
    case Scan(q, d, todo, found) => q == p && d == cr ==> found + Holders(s.reg.table, todo, cr) == ids
    case Sweep(q, _, crs, todo) => q == p && crs != [] && crs[0] == cr ==> Within(ids, todo)
    case Clean(f, todo) => f in s.flights && s.flights[f].plane == p && s.flights[f].cr == cr ==> Within(ids, todo)
  }

  lemma AuthorisedIds(r: Reg, p: string, cr: string, id: ConnId)
    ensures id in Authorised(r, p, cr) <==> id in Members(r, p) && Holds(r.table, id, cr)
  {
    HoldersMeaning(r.table, Members(r, p), cr);
  }

  lemma MembersHaveIds(r: Reg, p: string, cr: string)
    ensures Within(Authorised(r, p, cr), Members(r, p))
  {
    HoldersMeaning(r.table, Members(r, p), cr);
  }

  /** Passing over a connection that is not authorised passes over none of `ids`. */
  lemma PassOver(r: Reg, p: string, cr: string, ids: seq<ConnId>, todo: seq<ConnId>)
    requires Authorised(r, p, cr) == ids && Within(ids, todo) && todo != [] && !Holds(r.table, todo[0], cr)
    ensures Within(ids, todo[1..])
  {
    HoldersMeaning(r.table, Members(r, p), cr);
  }

  lemma SweepAhead(s: Sys, p: string, cr: string, ids: seq<ConnId>)
    requires s.lock.Sweep? && Ahead(s, p, cr, ids) && Authorised(s.reg, p, cr) == ids
    ensures Ahead(SweepOne(s), p, cr, ids)
  {
    var Sweep(q, _, crs, todo) := s.lock;
    MembersHaveIds(s.reg, p, cr);
    if q == p && crs != [] && crs[0] == cr && todo != [] && !Holds(s.reg.table, todo[0], cr) {
      PassOver(s.reg, p, cr, ids, todo);
    }
  }

  lemma CleanAhead(s: Sys, p: string, cr: string, ids: seq<ConnId>)
    requires s.lock.Clean? && s.lock.flight in s.flights && Ahead(s, p, cr, ids) && Authorised(s.reg, p, cr) == ids
    ensures Ahead(CleanOne(s), p, cr, ids)
  {
    var Clean(f, todo) := s.lock;
    if s.flights[f].plane == p && s.flights[f].cr == cr && todo != [] && !Holds(s.reg.table, todo[0], cr) {
      PassOver(s.reg, p, cr, ids, todo);
    }
  }

  /** While the authorised connections stay the same, so does what a scan has yet to find. */
  lemma SameHolders(r: Reg, t: Reg, p: string, cr: string, todo: seq<ConnId>)
    requires t.planes == r.planes && Authorised(t, p, cr) == Authorised(r, p, cr)
    requires forall i :: 0 <= i < |todo| ==> todo[i] in Members(r, p)
    ensures Holders(t.table, todo, cr) == Holders(r.table, todo, cr)
  {
    forall i | 0 <= i < |todo| ensures Holds(t.table, todo[i], cr) == Holds(r.table, todo[i], cr) {
      AuthorisedIds(r, p, cr, todo[i]);
      AuthorisedIds(t, p, cr, todo[i]);
    }
    HoldersAgree(t.table, r.table, todo, cr);
  }

  lemma UpdateAhead(trust: Trust, s: Sys, f: nat, p: string, cr: string, ids: seq<ConnId>)
    requires Sound(s) && Enabled(s, FlightUpdate(f)) && Ahead(s, p, cr, ids)
    requires Authorised(s.reg, p, cr) == ids == Authorised(UpdateOne(trust, s, f).reg, p, cr)
    ensures Ahead(UpdateOne(trust, s, f), p, cr, ids)
  {
    if s.lock.Scan? && s.lock.plane == p { SameHolders(s.reg, UpdateOne(trust, s, f).reg, p, cr, s.lock.todo); }
  }

  lemma ScanAhead(s: Sys, p: string, cr: string, ids: seq<ConnId>)
    requires s.lock.Scan? && s.lock.todo != [] && Ahead(s, p, cr, ids)
    ensures var Scan(q, d, todo, found) := s.lock;
            Ahead(s.(lock := Scan(q, d, todo[1..], if Holds(s.reg.table, todo[0], d) then found + [todo[0]] else found)), p, cr, ids)
  {
    var Scan(q, d, todo, found) := s.lock;
    if Holds(s.reg.table, todo[0], cr) {
      assert (found + [todo[0]]) + Holders(s.reg.table, todo[1..], cr) == found + Holders(s.reg.table, todo, cr);
    } else {
      assert [] + Holders(s.reg.table, todo[1..], cr) == Holders(s.reg.table, todo[1..], cr);
    }
  }

  lemma NextAhead(trust: Trust, s: Sys, a: Act, p: string, cr: string, ids: seq<ConnId>)
    requires Sound(s) && Enabled(s, a) && Ahead(s, p, cr, ids)
    requires Authorised(s.reg, p, cr) == ids == Authorised(Next(trust, s, a).reg, p, cr)
    ensures Ahead(Next(trust, s, a), p, cr, ids)
  {
    var t := Next(trust, s, a);
    match a
    case ScanStart(q, d) => assert [] + ids == ids;
    case ScanCheck => ScanAhead(s, p, cr, ids);
    case UnregisterRemove => MembersHaveIds(t.reg, p, cr);
    case SweepCheck => SweepAhead(s, p, cr, ids);
    case FlightUpdate(f) => UpdateAhead(trust, s, f, p, cr, ids);
    case FlightEnd(f) => MembersHaveIds(s.reg, p, cr);
    case CleanCheck => CleanAhead(s, p, cr, ids);
    case _ =>
  }

  // ----- the pair's counter ---------------------------------------------------------------------------------------

  lemma SweepCounter(s: Sys, p: string, cr: string, ids: seq<ConnId>)
    requires Sound(s) && s.lock.Sweep? && Ahead(s, p, cr, ids) && ids != [] && IsPlane(p)
    ensures Counter(SweepOne(s).reg.counters, CounterKey(p, cr)) == Counter(s.reg.counters, CounterKey(p, cr))
  {
    var Sweep(q, _, crs, todo) := s.lock;
    if crs != [] && todo == [] {
      CounterKeyInjective(q, crs[0], p, cr);
      assert ids[0] in ids;
    }
  }

  lemma CleanCounter(s: Sys, p: string, cr: string, ids: seq<ConnId>)
    requires s.lock.Clean? && s.lock.flight in s.flights && IsPlane(s.flights[s.lock.flight].plane)
    requires Ahead(s, p, cr, ids) && ids != [] && IsPlane(p)
    ensures Counter(CleanOne(s).reg.counters, CounterKey(p, cr)) == Counter(s.reg.counters, CounterKey(p, cr))
  {
    var flight := s.flights[s.lock.flight];
    CounterKeyInjective(flight.plane, flight.cr, p, cr);
    assert ids[0] in ids;
  }

  lemma RemoveCounter(s: Sys, p: string, cr: string)
    requires Sound(s) && s.lock.Leaving? && Authorised(s.reg, p, cr) != [] && Authorised(RemoveOne(s).reg, p, cr) != []
    ensures Counter(RemoveOne(s).reg.counters, CounterKey(p, cr)) == Counter(s.reg.counters, CounterKey(p, cr))
  {
    AuthorisedMeaning(s.reg, p, cr);
    if !RemoveOne(s).lock.Sweep? {
      assert p != s.lock.plane;
      DropPlaneKeysKeeps(s.reg, s.lock.plane, p, cr);
    }
  }

  /** The registry's flights are for planes. */
  ghost predicate FlightPlanes(s: Sys) {
    forall f :: f in s.flights ==> IsPlane(s.flights[f].plane)
  }

  lemma NextFlightPlanes(trust: Trust, s: Sys, a: Act)
    requires Sound(s) && Enabled(s, a) && FlightPlanes(s)
    ensures FlightPlanes(Next(trust, s, a))
  {
  }

  /** Only completing a GetForCR for the pair moves its counter. */
  lemma NextCounter(trust: Trust, s: Sys, a: Act, p: string, cr: string, ids: seq<ConnId>)
    requires Sound(s) && FlightPlanes(s) && Enabled(s, a) && Ahead(s, p, cr, ids) && ids != [] && !Completes(s, a, p, cr)
    requires Authorised(s.reg, p, cr) == ids == Authorised(Next(trust, s, a).reg, p, cr)
    ensures Counter(Next(trust, s, a).reg.counters, CounterKey(p, cr)) == Counter(s.reg.counters, CounterKey(p, cr))
  {
    AuthorisedMeaning(s.reg, p, cr);
    match a
    case DoGet(q) => CounterKeyNotPlane(p, cr);
    case DoDisconnect(q) =>
      if q in s.reg.planes {
        assert p != q;
        DropPlaneKeysKeeps(s.reg, q, p, cr);
      }
    case ScanEnd => CounterKeyInjective(s.lock.plane, s.lock.cr, p, cr);
    case UnregisterRemove => RemoveCounter(s, p, cr);
    case SweepCheck => SweepCounter(s, p, cr, ids);
    case CleanCheck => CleanCounter(s, p, cr, ids);
    case _ =>
  }

  // ----- fairness ----------------------------------------------------------------------------------------------------

  /** A state of a steady run. */
  ghost predicate Ready(s: Sys, p: string, cr: string, ids: seq<ConnId>) {
    Inv(s) && FlightPlanes(s) && Ahead(s, p, cr, ids) && Authorised(s.reg, p, cr) == ids && ids != []
  }

  lemma NextReady(trust: Trust, s: Sys, a: Act, p: string, cr: string, ids: seq<ConnId>)
    requires Ready(s, p, cr, ids) && Enabled(s, a) && Authorised(Next(trust, s, a).reg, p, cr) == ids
    ensures Ready(Next(trust, s, a), p, cr, ids)
  {
    NextKeeps(trust, s, a);
    NextFlightPlanes(trust, s, a);
    NextAhead(trust, s, a, p, cr, ids);
  }

  /** A completed call picks where the counter stands and moves it on by one. */
  lemma CompletesTurn(trust: Trust, s: Sys, p: string, cr: string, ids: seq<ConnId>)
    requires Ready(s, p, cr, ids) && Enabled(s, ScanEnd) && Completes(s, ScanEnd, p, cr)
    ensures var c, key := Counter(s.reg.counters, CounterKey(p, cr)), CounterKey(p, cr);
            && s.lock.found != [] && Rotate(s.reg, key, s.lock.found).choice == Some(At(ids, c))
            && Counter(Next(trust, s, ScanEnd).reg.counters, key) == Wrap(c + 1, |ids|)
  {
    assert s.lock.found + [] == s.lock.found;
    RotateTurns(s.reg, CounterKey(p, cr), ids);
  }

  lemma RoundCons(pick: ConnId, rest: seq<ConnId>, ids: seq<ConnId>, c: nat)
    requires ids != [] && pick == At(ids, c) && GoesRound(rest, ids, Wrap(c + 1, |ids|))
    ensures GoesRound([pick] + rest, ids, c)
  {
    assert ([pick] + rest)[1..] == rest;
  }

  lemma {:induction false} ActPicksGoRound(trust: Trust, s: Sys, acts: seq<Act>, p: string, cr: string, ids: seq<ConnId>)
    requires Ready(s, p, cr, ids) && SteadyActs(trust, s, acts, p, cr, ids) && Legal(trust, s, acts)
    ensures GoesRound(ActPicks(trust, s, acts, p, cr), ids, Counter(s.reg.counters, CounterKey(p, cr)))
    ensures |ActPicks(trust, s, acts, p, cr)| == Completed(trust, s, acts, p, cr)
    decreases |acts|
  {
    if acts != [] {
      var next, c := Next(trust, s, acts[0]), Counter(s.reg.counters, CounterKey(p, cr));
      var rest := ActPicks(trust, next, acts[1..], p, cr);
      NextReady(trust, s, acts[0], p, cr, ids);
      ActPicksGoRound(trust, next, acts[1..], p, cr, ids);
      if Completes(s, acts[0], p, cr) {
        CompletesTurn(trust, s, p, cr, ids);
        RoundCons(At(ids, c), rest, ids, c);
      } else {
        assert [] + rest == rest;
        NextCounter(trust, s, acts[0], p, cr, ids);
      }
    }
  }

  lemma {:induction false} RunFlightPlanes(trust: Trust, s: Sys, acts: seq<Act>)
    requires Inv(s) && FlightPlanes(s) && Legal(trust, s, acts)
    ensures FlightPlanes(After(trust, s, acts))
    decreases |acts|
  {
    if acts != [] {
      NextKeeps(trust, s, acts[0]);
      NextFlightPlanes(trust, s, acts[0]);
      RunFlightPlanes(trust, Next(trust, s, acts[0]), acts[1..]);
    }
  }

  /**
   In every interleaving: from any state reached with the lock free, as long as the same connections
   stay authorised for a CR on a plane, the GetForCR calls for it that complete pick each of them
   equally often, give or take one, whatever else is going on.
   */
  lemma InterleavedFair(trust: Trust, before: seq<Act>, acts: seq<Act>, p: string, cr: string, ids: seq<ConnId>)
    requires Legal(trust, Idle, before) && After(trust, Idle, before).lock.Free? && ids != []
    requires SteadyActs(trust, After(trust, Idle, before), acts, p, cr, ids)
    ensures Legal(trust, After(trust, Idle, before), acts)
    ensures var s := After(trust, Idle, before);
            |ActPicks(trust, s, acts, p, cr)| == Completed(trust, s, acts, p, cr) && Even(ActPicks(trust, s, acts, p, cr), ids)
  {
    var s := After(trust, Idle, before);
    RunKeeps(trust, Idle, before);
    RunFlightPlanes(trust, Idle, before);
    SteadyIsLegal(trust, s, acts, p, cr, ids);
    ActPicksGoRound(trust, s, acts, p, cr, ids);
    AuthorisedMeaning(s.reg, p, cr);
    RoundIsEven(ActPicks(trust, s, acts, p, cr), ids, Counter(s.reg.counters, CounterKey(p, cr)));
  }
}
