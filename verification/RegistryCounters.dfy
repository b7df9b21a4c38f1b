/** No round-robin counter outlives what it is for, in every interleaving of the registry's operations. */
module RegistryCounters {
  import opened Sequences
  import opened RegistryKeys
  import opened Registry
  import opened RegistryRuns
  import opened RegistryInterleaving

  ghost predicate Inv(s: Sys) {
    Sound(s) && NoLeak(s)
  }

  /** Keys survive a step that keeps their justification. */
  lemma KeysKept(s: Sys, t: Sys)
    requires NoLeak(s)
    requires forall p :: p in s.reg.planes ==> p in t.reg.planes
    requires forall key :: key in t.reg.counters ==> key in s.reg.counters
    requires forall p, cr :: Justified(s, p, cr) && CounterKey(p, cr) in t.reg.counters ==> Justified(t, p, cr)
    ensures NoLeak(t)
  {
  }

  lemma RegisterKeeps(s: Sys, planeType: string, planeID: string, id: ConnId, crs: seq<string>, cert: string)
    requires Inv(s) && Enabled(s, DoRegister(planeType, planeID, id, crs, cert))
    ensures Inv(s.(reg := Register(s.reg, planeType, planeID, id, crs, cert)))
  {
    var t := s.(reg := Register(s.reg, planeType, planeID, id, crs, cert));
    RegisterSound(s, planeType, planeID, id, crs, cert);
    forall p, cr | Justified(s, p, cr) ensures Justified(t, p, cr) {
      RegisterJustify(s, planeType, planeID, id, crs, cert, p, cr);
    }
    KeysKept(s, t);
  }

  /** A plane goes with every counter under its name. */
  lemma PlaneGoneKeeps(s: Sys, t: Sys, gone: string)
    requires Inv(s) && (s.lock.Free? || (s.lock.Leaving? && s.lock.plane == gone)) && t.lock.Free?
    requires t.reg.planes == s.reg.planes - {gone} && t.reg.table == s.reg.table && t.flights == s.flights
    requires t.reg.counters == DropPlaneKeys(s.reg.counters, gone) && IsPlane(gone)
    ensures Inv(t)
  {
    FlightsKeep(s, t);
    forall key | key in t.reg.counters ensures Accounted(t, key) {
      assert Accounted(s, key);
      if key !in s.reg.planes {
        var p, cr :| key == CounterKey(p, cr) && Justified(s, p, cr);
        PrefixIsPlane(gone, p, cr);
        PlaneGoneJustify(s, t, gone, p, cr);
      }
    }
  }

  lemma ScanEndKeeps(s: Sys)
    requires Inv(s) && s.lock.Scan? && s.lock.todo == []
    ensures Inv(s.(lock := Free, reg := Rotate(s.reg, CounterKey(s.lock.plane, s.lock.cr), s.lock.found).reg))
  {
    var t := s.(lock := Free, reg := Rotate(s.reg, CounterKey(s.lock.plane, s.lock.cr), s.lock.found).reg);
    FlightsKeep(s, t);
    forall p, cr | Justified(s, p, cr) ensures Justified(t, p, cr) { Carry(s, t, p, cr); }
    forall key | key in t.reg.counters ensures Accounted(t, key) {
      if key in s.reg.counters {
        assert Accounted(s, key);
      }
    }
  }

  lemma ScanCheckKeeps(s: Sys)
    requires Inv(s) && s.lock.Scan? && s.lock.todo != []
    ensures var Scan(p, cr, todo, found) := s.lock;
            Inv(s.(lock := Scan(p, cr, todo[1..], if Holds(s.reg.table, todo[0], cr) then found + [todo[0]] else found)))
  {
    var Scan(p, cr, todo, found) := s.lock;
    var t := s.(lock := Scan(p, cr, todo[1..], if Holds(s.reg.table, todo[0], cr) then found + [todo[0]] else found));
    FlightsKeep(s, t);
    forall p, cr | Justified(s, p, cr) ensures Justified(t, p, cr) { Carry(s, t, p, cr); }
    KeysKept(s, t);
    assert Holds(s.reg.table, todo[0], cr) ==> Stays(t, p, todo[0]);
  }

  lemma LeaveKeeps(s: Sys, p: string, id: ConnId)
    requires Inv(s) && s.lock.Free? && id in Members(s.reg, p)
    ensures id in s.reg.table && Inv(s.(lock := Leaving(p, id, s.reg.table[id].crs)))
  {
    var t := s.(lock := Leaving(p, id, s.reg.table[id].crs));
    FlightsKeep(s, t);
    forall q, cr | Justified(s, q, cr) ensures Justified(t, q, cr) { LeaveJustify(s, id, q, cr); }
    KeysKept(s, t);
  }

  lemma RemoveKeeps(s: Sys)
    requires Inv(s) && s.lock.Leaving?
    ensures Inv(RemoveOne(s))
  {
    var t := RemoveOne(s);
    if t.lock.Sweep? {
      RemoveSound(s);
      forall q, cr | Justified(s, q, cr) ensures Justified(t, q, cr) { RemoveJustify(s, q, cr); }
      KeysKept(s, t);
    } else {
      PlaneGoneKeeps(s, t, s.lock.plane);
    }
  }

  lemma SweepKeeps(s: Sys)
    requires Inv(s) && s.lock.Sweep?
    ensures Inv(SweepOne(s))
  {
    var t := SweepOne(s);
    SweepSound(s);
    forall p, cr | Justified(s, p, cr) && CounterKey(p, cr) in t.reg.counters ensures Justified(t, p, cr) {
      SweepJustify(s, p, cr);
    }
    KeysKept(s, t);
  }

  lemma SweepJustify(s: Sys, p: string, cr: string)
    requires Sound(s) && s.lock.Sweep? && Justified(s, p, cr)
    requires CounterKey(p, cr) in SweepOne(s).reg.counters
    ensures Justified(SweepOne(s), p, cr)
  {
    var t := SweepOne(s);
    if s.lock.crs != [] && s.lock.todo != [] && Holds(s.reg.table, s.lock.todo[0], s.lock.crs[0]) {
      assert Stays(t, s.lock.plane, s.lock.todo[0]);
    }
    Carry(s, t, p, cr);
  }

  lemma UpdateKeeps(trust: Trust, s: Sys, f: nat)
    requires Inv(s) && Enabled(s, FlightUpdate(f))
    ensures Inv(UpdateOne(trust, s, f))
  {
    var t := UpdateOne(trust, s, f);
    forall p, cr | Justified(s, p, cr) ensures Justified(t, p, cr) { UpdateJustify(trust, s, f, p, cr); }
    KeysKept(s, t);
    UpdateSound(trust, s, f);
  }

  lemma UpdateSound(trust: Trust, s: Sys, f: nat)
    requires Sound(s) && Enabled(s, FlightUpdate(f))
    ensures Sound(UpdateOne(trust, s, f))
  {
    UpdateConsistent(trust, s, f);
    UpdateLock(trust, s, f);
    UpdateFlights(trust, s, f);
  }

  lemma UpdateLock(trust: Trust, s: Sys, f: nat)
    requires Sound(s) && Enabled(s, FlightUpdate(f))
    ensures LockOk(UpdateOne(trust, s, f))
  {
    if s.lock.Scan? && s.lock.found != [] { UpdateJustify(trust, s, f, s.lock.plane, s.lock.cr); }
  }

  lemma UpdateFlights(trust: Trust, s: Sys, f: nat)
    requires Sound(s) && Enabled(s, FlightUpdate(f))
    ensures forall g :: g in UpdateOne(trust, s, f).flights ==> FlightOk(UpdateOne(trust, s, f), g)
  {
    var t := UpdateOne(trust, s, f);
    forall g | g in t.flights ensures FlightOk(t, g) { assert FlightOk(s, g) && FlightOk(s, f); }
  }

  lemma UpdateConsistent(trust: Trust, s: Sys, f: nat)
    requires Sound(s) && Enabled(s, FlightUpdate(f))
    ensures Consistent(UpdateOne(trust, s, f).reg)
  {
    var flight := s.flights[f];
    assert FlightOk(s, f);
    var id := flight.todo[0];
    RevalidateOneConsistent(trust, s.reg, flight.plane, id, flight.cr, flight.ca);
    assert Consistent(RevalidateOne(trust, s.reg, flight.plane, id, flight.cr, flight.ca).(events := s.reg.events));
  }

  lemma CleanKeeps(s: Sys)
    requires Inv(s) && s.lock.Clean?
    ensures Inv(CleanOne(s))
  {
    var t := CleanOne(s);
    CleanSound(s);
    forall p, cr | Justified(s, p, cr) && CounterKey(p, cr) in t.reg.counters ensures Justified(t, p, cr) {
      CleanJustify(s, p, cr);
    }
    KeysKept(s, t);
  }

  lemma CleanJustify(s: Sys, p: string, cr: string)
    requires Sound(s) && s.lock.Clean? && Justified(s, p, cr)
    requires CounterKey(p, cr) in CleanOne(s).reg.counters
    ensures Justified(CleanOne(s), p, cr)
  {
    var t, f := CleanOne(s), s.lock.flight;
    if t.lock.Clean? {
      Carry(s, t, p, cr);
    } else {
      if s.lock.todo != [] { assert Stays(s, s.flights[f].plane, s.lock.todo[0]); }
      FlightGoneJustify(s, s.(flights := s.flights - {f}, lock := Free), f, p, cr);
      Carry(s.(flights := s.flights - {f}, lock := Free), t, p, cr);
    }
  }

  /** Steps that touch no plane, no connection and no counter, and end no flight. */
  lemma QuietKeeps(s: Sys, t: Sys)
    requires Inv(s) && t.reg.planes == s.reg.planes && t.reg.table == s.reg.table && t.reg.counters == s.reg.counters
    requires t.lock == s.lock || (s.lock.Free? && !t.lock.Leaving?)
    requires LockOk(t) && forall f :: f in t.flights ==> FlightOk(t, f)
    requires forall p, cr :: Revoking(s, p, cr) ==> Revoking(t, p, cr)
    ensures Inv(t)
  {
    forall p, cr | Justified(s, p, cr) ensures Justified(t, p, cr) { Carry(s, t, p, cr); }
    KeysKept(s, t);
  }

  lemma FlightStartKeeps(s: Sys, f: nat, p: string, cr: string, ca: string)
    requires Inv(s) && s.lock.Free? && f !in s.flights && p in s.reg.planes && cr != ""
    ensures Inv(s.(flights := s.flights[f := Flight(p, cr, ca, s.reg.planes[p], None, 0, 0)]))
  {
    var t := s.(flights := s.flights[f := Flight(p, cr, ca, s.reg.planes[p], None, 0, 0)]);
    forall g | g in t.flights ensures FlightOk(t, g) { assert g in s.flights ==> FlightOk(s, g); }
    RevokingKept(s, t);
    QuietKeeps(s, t);
  }

  lemma RevokingKept(s: Sys, t: Sys)
    requires forall f :: f in s.flights && s.flights[f].removed > 0 ==>
               f in t.flights && t.flights[f].removed > 0 && t.flights[f].plane == s.flights[f].plane && t.flights[f].cr == s.flights[f].cr
    ensures forall p, cr :: Revoking(s, p, cr) ==> Revoking(t, p, cr)
  {
  }

  lemma FlightNotifyKeeps(trust: Trust, s: Sys, f: nat)
    requires Inv(s) && Enabled(s, FlightNotify(f))
    ensures Inv(Next(trust, s, FlightNotify(f)))
  {
    var t := Next(trust, s, FlightNotify(f));
    forall g | g in t.flights ensures FlightOk(t, g) { assert FlightOk(s, g); }
    RevokingKept(s, t);
    if s.lock.Scan? && s.lock.found != [] { Carry(s, t, s.lock.plane, s.lock.cr); }
    QuietKeeps(s, t);
  }

  lemma FlightEndKeeps(trust: Trust, s: Sys, f: nat)
    requires Inv(s) && Enabled(s, FlightEnd(f))
    ensures Inv(Next(trust, s, FlightEnd(f)))
  {
    var t := Next(trust, s, FlightEnd(f));
    FlightsKeep(s, t);
    RevokingKept(s, t);
    if s.lock.Scan? && s.lock.found != [] { Carry(s, t, s.lock.plane, s.lock.cr); }
    QuietKeeps(s, t);
  }

  lemma GetKeeps(s: Sys, p: string)
    requires Inv(s) && s.lock.Free?
    ensures Inv(s.(reg := Get(s.reg, p).reg))
  {
    var t := s.(reg := Get(s.reg, p).reg);
    FlightsKeep(s, t);
    forall q, cr | Justified(s, q, cr) ensures Justified(t, q, cr) { Carry(s, t, q, cr); }
    forall key | key in t.reg.counters ensures Accounted(t, key) {
      if key in s.reg.counters { assert Accounted(s, key); }
    }
  }

  lemma ScanStartKeeps(s: Sys, p: string, cr: string)
    requires Inv(s) && s.lock.Free? && p in s.reg.planes
    ensures Inv(s.(lock := Scan(p, cr, s.reg.planes[p], [])))
  {
    var t := s.(lock := Scan(p, cr, s.reg.planes[p], []));
    FlightsKeep(s, t);
    QuietKeeps(s, t);
  }

  /** Every step of every actor keeps the invariant. */
  lemma NextKeeps(trust: Trust, s: Sys, a: Act)
    requires Inv(s) && Enabled(s, a)
    ensures Inv(Next(trust, s, a))
  {
    match a
    case DoRegister(planeType, planeID, id, crs, cert) => RegisterKeeps(s, planeType, planeID, id, crs, cert);
    case DoGet(p) => GetKeeps(s, p);
    case DoDisconnect(p) => if p in s.reg.planes { PlaneGoneKeeps(s, Next(trust, s, a), p); }
    case ScanStart(p, cr) => if p in s.reg.planes { ScanStartKeeps(s, p, cr); }
    case ScanCheck => ScanCheckKeeps(s);
    case ScanEnd => ScanEndKeeps(s);
    case UnregisterStart(p, id) => if id in Members(s.reg, p) { LeaveKeeps(s, p, id); }
    case UnregisterRemove => RemoveKeeps(s);
    case SweepCheck => SweepKeeps(s);
    case FlightStart(f, p, ns, name, ca) => if p in s.reg.planes { FlightStartKeeps(s, f, p, CRKey(ns, name), ca); }
    case FlightUpdate(f) => UpdateKeeps(trust, s, f);
    case FlightNotify(f) => FlightNotifyKeeps(trust, s, f);
    case FlightEnd(f) => FlightEndKeeps(trust, s, f);
    case CleanCheck => CleanKeeps(s);
  }

  lemma {:induction false} RunKeeps(trust: Trust, s: Sys, acts: seq<Act>)
    requires Inv(s) && Legal(trust, s, acts)
    ensures Inv(After(trust, s, acts))
    decreases |acts|
  {
    if acts != [] {
      NextKeeps(trust, s, acts[0]);
      RunKeeps(trust, Next(trust, s, acts[0]), acts[1..]);
    }
  }

  /** In every interleaving, every counter is accounted for. */
  lemma CountersAccounted(trust: Trust, acts: seq<Act>, key: string)
    requires Legal(trust, Idle, acts) && key in After(trust, Idle, acts).reg.counters
    ensures Accounted(After(trust, Idle, acts), key)
  {
    RunKeeps(trust, Idle, acts);
  }

  /** Once no re-validation is in flight and the lock is free, a counter belongs to a plane with a
      connection or to a pair with an authorised connection. */
  lemma NoCounterLeaks(trust: Trust, acts: seq<Act>, key: string)
    requires Legal(trust, Idle, acts) && key in After(trust, Idle, acts).reg.counters
    requires After(trust, Idle, acts).lock.Free? && After(trust, Idle, acts).flights == map[]
    ensures var r := After(trust, Idle, acts).reg;
            Members(r, key) != [] || exists p, cr :: key == CounterKey(p, cr) && Authorised(r, p, cr) != []
  {
    var s := After(trust, Idle, acts);
    RunKeeps(trust, Idle, acts);
    assert Accounted(s, key);
    if key !in s.reg.planes {
      var p, cr :| key == CounterKey(p, cr) && Justified(s, p, cr);
      HoldersMeaning(s.reg.table, Members(s.reg, p), cr);
      var id :| Stays(s, p, id) && Holds(s.reg.table, id, cr);
      assert id in Authorised(s.reg, p, cr);
    }
  }

  predicate ByLockHolder(a: Act) {
    a.ScanCheck? || a.ScanEnd? || a.UnregisterRemove? || a.SweepCheck? || a.CleanCheck?
  }

  /** Whoever holds the lock can always go on. */
  lemma LockHolderGoesOn(trust: Trust, acts: seq<Act>)
    requires Legal(trust, Idle, acts) && !After(trust, Idle, acts).lock.Free?
    ensures exists a :: ByLockHolder(a) && Enabled(After(trust, Idle, acts), a)
  {
    var s := After(trust, Idle, acts);
    RunKeeps(trust, Idle, acts);
    var a := if s.lock.Scan? then (if s.lock.todo == [] then ScanEnd else ScanCheck)
             else if s.lock.Leaving? then UnregisterRemove
             else if s.lock.Sweep? then SweepCheck
             else CleanCheck;
    assert ByLockHolder(a) && Enabled(s, a);
  }

  /** A re-validation in flight waits for nothing but the lock. */
  lemma FlightGoesOn(trust: Trust, acts: seq<Act>, f: nat)
    requires Legal(trust, Idle, acts) && After(trust, Idle, acts).lock.Free? && f in After(trust, Idle, acts).flights
    ensures var s := After(trust, Idle, acts); Enabled(s, FlightUpdate(f)) || Enabled(s, FlightNotify(f)) || Enabled(s, FlightEnd(f))
  {
    RunKeeps(trust, Idle, acts);
    assert FlightOk(After(trust, Idle, acts), f);
  }
}
