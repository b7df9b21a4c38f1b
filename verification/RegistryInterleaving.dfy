/**
 The registry at the granularity of its locks.

 The manager lock is held across a whole operation, but a connection's authorisations are read
 and written under that connection's own lock, so every check of one connection is a step of its
 own. Re-validation copies the plane's connections under the manager lock, updates them one by
 one without it, notifies the listener, and takes the lock again only to clean up.
 */
module RegistryInterleaving {
  import opened Sequences
  import opened RegistryKeys
  import opened Registry
  import opened RegistryRuns

  /** Who holds the manager lock, and how far they are. */
  datatype Lock =
    | Free
    | Scan(plane: string, cr: string, todo: seq<ConnId>, found: seq<ConnId>)
    | Leaving(plane: string, id: ConnId, crs: seq<string>)
    | Sweep(plane: string, id: ConnId, crs: seq<string>, todo: seq<ConnId>)
    | Clean(flight: nat, todo: seq<ConnId>)

  /** A re-validation in progress. */
  datatype Flight = Flight(plane: string, cr: string, ca: string, todo: seq<ConnId>, notify: Option<ConnId>, updated: nat, removed: nat)

  datatype Sys = Sys(reg: Reg, lock: Lock, flights: map<nat, Flight>)

  datatype Act =
    | DoRegister(planeType: string, planeID: string, id: ConnId, crs: seq<string>, cert: string)
    | DoGet(plane: string)
    | DoDisconnect(plane: string)
    | ScanStart(plane: string, cr: string)
    | ScanCheck
    | ScanEnd
    | UnregisterStart(plane: string, id: ConnId)
    | UnregisterRemove
    | SweepCheck
    | FlightStart(flight: nat, plane: string, crNamespace: string, crName: string, ca: string)
    | FlightUpdate(flight: nat)
    | FlightNotify(flight: nat)
    | FlightEnd(flight: nat)
    | CleanCheck

  const Idle: Sys := Sys(Empty, Free, map[])

  predicate Enabled(s: Sys, a: Act) {
    match a
    case DoRegister(planeType, planeID, id, crs, cert) => s.lock.Free? && Allowed(s.reg, OpRegister(planeType, planeID, id, crs, cert))
    case DoGet(_) => s.lock.Free?
    case DoDisconnect(_) => s.lock.Free?
    case ScanStart(_, _) => s.lock.Free?
    case ScanCheck => s.lock.Scan? && s.lock.todo != []
    case ScanEnd => s.lock.Scan? && s.lock.todo == []
    case UnregisterStart(_, _) => s.lock.Free?
    case UnregisterRemove => s.lock.Leaving? && s.lock.id in Members(s.reg, s.lock.plane)
    case SweepCheck => s.lock.Sweep?
    case FlightStart(f, _, _, _, _) => s.lock.Free? && f !in s.flights
    case FlightUpdate(f) => f in s.flights && s.flights[f].notify == None && s.flights[f].todo != []
    case FlightNotify(f) => f in s.flights && s.flights[f].notify.Some? && s.flights[f].notify.value in s.reg.table
    case FlightEnd(f) =>
      f in s.flights && s.flights[f].notify == None && s.flights[f].todo == [] && (s.flights[f].removed == 0 || s.lock.Free?)
    case CleanCheck => s.lock.Clean? && s.lock.flight in s.flights
  }

  /** Takes the connection out of its plane; a plane that stays has its counters swept next. */
  function RemoveOne(s: Sys): Sys
    requires s.lock.Leaving? && s.lock.id in Members(s.reg, s.lock.plane)
  {
    var Leaving(p, id, crs) := s.lock;
    var left := Removed(s.reg.planes[p], id);
    if left == [] then s.(reg := Unregister(s.reg, p, id), lock := Free)
    else s.(reg := s.reg.(planes := s.reg.planes[p := left]), lock := Sweep(p, id, crs, left))
  }

  function SweepOne(s: Sys): Sys
    requires s.lock.Sweep?
  {
    var Sweep(p, id, crs, todo) := s.lock;
    if crs == [] then s.(lock := Free, reg := s.reg.(events := s.reg.events + [Unregistered(p, id)]))
    else if todo == [] then
      s.(lock := Sweep(p, id, crs[1..], Members(s.reg, p)), reg := s.reg.(counters := s.reg.counters - {CounterKey(p, crs[0])}))
    else if Holds(s.reg.table, todo[0], crs[0]) then s.(lock := Sweep(p, id, crs[1..], Members(s.reg, p)))
    else s.(lock := Sweep(p, id, crs, todo[1..]))
  }

  function UpdateOne(trust: Trust, s: Sys, f: nat): Sys
    requires f in s.flights && s.flights[f].todo != []
  {
    var flight := s.flights[f];
    var id := flight.todo[0];
    var granted, revoked := Grants(trust, s.reg.table, id, flight.cr, flight.ca), Revokes(trust, s.reg.table, id, flight.cr, flight.ca);
    if granted || revoked then
      var crs := UpdatedCRs(trust, s.reg.table[id], flight.cr, flight.ca);
      s.(reg := s.reg.(table := s.reg.table[id := s.reg.table[id].(crs := crs)]),
         flights := s.flights[f := flight.(todo := flight.todo[1..], notify := Some(id),
                                           updated := flight.updated + (if granted then 1 else 0),
                                           removed := flight.removed + (if revoked then 1 else 0))])
    else s.(flights := s.flights[f := flight.(todo := flight.todo[1..])])
  }

  function CleanOne(s: Sys): Sys
    requires s.lock.Clean? && s.lock.flight in s.flights
  {
    var Clean(f, todo) := s.lock;
    var flight := s.flights[f];
    if todo == [] then
      s.(lock := Free, flights := s.flights - {f}, reg := s.reg.(counters := s.reg.counters - {CounterKey(flight.plane, flight.cr)}))
    else if Holds(s.reg.table, todo[0], flight.cr) then s.(lock := Free, flights := s.flights - {f})
    else s.(lock := Clean(f, todo[1..]))
  }

  function Next(trust: Trust, s: Sys, a: Act): Sys
    requires Enabled(s, a)
  {
    match a
    case DoRegister(planeType, planeID, id, crs, cert) => s.(reg := Register(s.reg, planeType, planeID, id, crs, cert))
    case DoGet(p) => s.(reg := Get(s.reg, p).reg)
    case DoDisconnect(p) => s.(reg := DisconnectAll(s.reg, p))
    case ScanStart(p, cr) => if p in s.reg.planes then s.(lock := Scan(p, cr, s.reg.planes[p], [])) else s
    case ScanCheck =>
      var Scan(p, cr, todo, found) := s.lock;
      s.(lock := Scan(p, cr, todo[1..], if Holds(s.reg.table, todo[0], cr) then found + [todo[0]] else found))
    case ScanEnd => s.(lock := Free, reg := Rotate(s.reg, CounterKey(s.lock.plane, s.lock.cr), s.lock.found).reg)
    case UnregisterStart(p, id) =>
      if id in Members(s.reg, p) && id in s.reg.table then s.(lock := Leaving(p, id, s.reg.table[id].crs)) else s
    case UnregisterRemove => RemoveOne(s)
    case SweepCheck => SweepOne(s)
    case FlightStart(f, p, ns, name, ca) =>
      if p in s.reg.planes && trust.parses(ca) then
        s.(flights := s.flights[f := Flight(p, CRKey(ns, name), ca, s.reg.planes[p], None, 0, 0)])
      else s
    case FlightUpdate(f) => UpdateOne(trust, s, f)
    case FlightNotify(f) =>
      var flight := s.flights[f];
      var id := flight.notify.value;
      s.(flights := s.flights[f := flight.(notify := None)],
         reg := s.reg.(events := s.reg.events + [CRsChanged(flight.plane, id, s.reg.table[id].crs)]))
    case FlightEnd(f) =>
      if s.flights[f].removed == 0 then s.(flights := s.flights - {f})
      else s.(lock := Clean(f, Members(s.reg, s.flights[f].plane)))
    case CleanCheck => CleanOne(s)
  }

  ghost predicate Legal(trust: Trust, s: Sys, acts: seq<Act>)
    decreases |acts|
  {
    acts == [] || (Enabled(s, acts[0]) && Legal(trust, Next(trust, s, acts[0]), acts[1..]))
  }

  ghost function After(trust: Trust, s: Sys, acts: seq<Act>): Sys
    requires Legal(trust, s, acts)
    decreases |acts|
  {
    if acts == [] then s else After(trust, Next(trust, s, acts[0]), acts[1..])
  }

  // ----- what every step keeps ---------------------------------------------------------------------------

  /** In the plane, and not the connection that is on its way out. */
  ghost predicate Stays(s: Sys, p: string, id: ConnId) {
    id in Members(s.reg, p) && !(s.lock.Leaving? && s.lock.id == id)
  }

  ghost predicate HasHolder(s: Sys, p: string, cr: string) {
    exists id :: Stays(s, p, id) && Holds(s.reg.table, id, cr)
  }

  /** A re-validation of the pair is under way and has already revoked something. */
  ghost predicate Revoking(s: Sys, p: string, cr: string) {
    exists f :: f in s.flights && s.flights[f].plane == p && s.flights[f].cr == cr && s.flights[f].removed > 0
  }

  /** The pair is still on the list of an unregistration that is cleaning up. */
  ghost predicate Swept(s: Sys, p: string, cr: string) {
    (s.lock.Sweep? || s.lock.Leaving?) && s.lock.plane == p && cr in s.lock.crs
  }

  ghost predicate Justified(s: Sys, p: string, cr: string) {
    p in s.reg.planes && cr != "" && (HasHolder(s, p, cr) || Revoking(s, p, cr) || Swept(s, p, cr))
  }

  ghost predicate Accounted(s: Sys, key: string) {
    key in s.reg.planes || exists p, cr :: key == CounterKey(p, cr) && Justified(s, p, cr)
  }

  ghost predicate NoLeak(s: Sys) {
    forall key :: key in s.reg.counters ==> Accounted(s, key)
  }

  ghost predicate FlightOk(s: Sys, f: nat)
    requires f in s.flights
  {
    && s.flights[f].cr != ""
    && (forall i :: 0 <= i < |s.flights[f].todo| ==>
          s.flights[f].todo[i] in s.reg.table && s.reg.table[s.flights[f].todo[i]].plane == s.flights[f].plane)
    && (s.flights[f].notify.Some? ==> s.flights[f].notify.value in s.reg.table)
  }

  ghost predicate LockOk(s: Sys) {
    match s.lock
    case Free => true
    case Scan(p, cr, todo, found) =>
      && p in s.reg.planes
      && (forall i :: 0 <= i < |todo| ==> todo[i] in s.reg.planes[p])
      && (found != [] ==> Justified(s, p, cr))
    case Leaving(p, id, crs) =>
      && id in Members(s.reg, p)
      && (forall i :: 0 <= i < |crs| ==> crs[i] != "")
    case Sweep(p, id, crs, todo) =>
      && p in s.reg.planes && id in s.reg.table && s.reg.table[id].plane == p && id !in s.reg.planes[p]
      && (forall i :: 0 <= i < |todo| ==> todo[i] in s.reg.planes[p])
      && (forall i :: 0 <= i < |crs| ==> crs[i] != "")
    case Clean(f, todo) =>
      && f in s.flights && s.flights[f].removed > 0
      && forall i :: 0 <= i < |todo| ==> todo[i] in Members(s.reg, s.flights[f].plane)
  }

  ghost predicate Sound(s: Sys) {
    Consistent(s.reg) && LockOk(s) && forall f :: f in s.flights ==> FlightOk(s, f)
  }

  // ----- a step keeps the registry sound ------------------------------------------------------------------

  lemma FlightsKeep(s: Sys, t: Sys)
    requires forall f :: f in s.flights ==> FlightOk(s, f)
    requires forall f :: f in t.flights ==> f in s.flights && t.flights[f] == s.flights[f]
    requires forall id :: id in s.reg.table ==> id in t.reg.table && t.reg.table[id].plane == s.reg.table[id].plane
    ensures forall f :: f in t.flights ==> FlightOk(t, f)
  {
  }

  lemma RegisterSound(s: Sys, planeType: string, planeID: string, id: ConnId, crs: seq<string>, cert: string)
    requires Sound(s) && Enabled(s, DoRegister(planeType, planeID, id, crs, cert))
    ensures Sound(s.(reg := Register(s.reg, planeType, planeID, id, crs, cert)))
  {
    RegisterConsistent(s.reg, planeType, planeID, id, crs, cert);
    FlightsKeep(s, s.(reg := Register(s.reg, planeType, planeID, id, crs, cert)));
  }

  lemma RemoveSound(s: Sys)
    requires Sound(s) && s.lock.Leaving?
    ensures Sound(RemoveOne(s))
  {
    var Leaving(p, id, crs) := s.lock;
    var t := RemoveOne(s);
    RemovedMeaning(s.reg.planes[p], id);
    var left := Removed(s.reg.planes[p], id);
    UnregisterConsistent(s.reg, p, id);
    assert s.reg.table[id].plane == p;
    FlightsKeep(s, t);
    forall i | 0 <= i < |left| ensures left[i] in s.reg.table && s.reg.table[left[i]].plane == p {
      assert left[i] in s.reg.planes[p];
    }
  }

  lemma SweepLock(s: Sys)
    requires Consistent(s.reg) && LockOk(s) && s.lock.Sweep?
    ensures LockOk(SweepOne(s))
  {
  }

  lemma SweepSound(s: Sys)
    requires Sound(s) && s.lock.Sweep?
    ensures Sound(SweepOne(s))
  {
    SweepLock(s);
    FlightsKeep(s, SweepOne(s));
  }

  lemma CleanSound(s: Sys)
    requires Sound(s) && s.lock.Clean?
    ensures Sound(CleanOne(s))
  {
    FlightsKeep(s, CleanOne(s));
  }

  // ----- a step keeps justifications ----------------------------------------------------------------------

  /** The three reasons a pair's counter may exist, each carried over on its own. */
  lemma Carry(s: Sys, t: Sys, p: string, cr: string)
    requires Justified(s, p, cr) && p in t.reg.planes
    requires forall id :: Stays(s, p, id) && Holds(s.reg.table, id, cr) ==> Justified(t, p, cr) || (Stays(t, p, id) && Holds(t.reg.table, id, cr))
    requires Revoking(s, p, cr) ==> Revoking(t, p, cr) || HasHolder(t, p, cr)
    requires Swept(s, p, cr) ==> Swept(t, p, cr) || HasHolder(t, p, cr)
    ensures Justified(t, p, cr)
  {
  }

  lemma RegisterJustify(s: Sys, planeType: string, planeID: string, id: ConnId, crs: seq<string>, cert: string, p: string, cr: string)
    requires Sound(s) && Enabled(s, DoRegister(planeType, planeID, id, crs, cert)) && Justified(s, p, cr)
    ensures Justified(s.(reg := Register(s.reg, planeType, planeID, id, crs, cert)), p, cr)
  {
    Carry(s, s.(reg := Register(s.reg, planeType, planeID, id, crs, cert)), p, cr);
  }

  /** A plane goes: what justifies the other planes' pairs stays. */
  lemma PlaneGoneJustify(s: Sys, t: Sys, gone: string, p: string, cr: string)
    requires Sound(s) && (s.lock.Free? || (s.lock.Leaving? && s.lock.plane == gone)) && t.lock.Free?
    requires t.reg.planes == s.reg.planes - {gone} && t.reg.table == s.reg.table && t.flights == s.flights
    requires Justified(s, p, cr) && p != gone
    ensures Justified(t, p, cr)
  {
    Carry(s, t, p, cr);
  }

  lemma RemoveJustify(s: Sys, p: string, cr: string)
    requires Sound(s) && s.lock.Leaving? && RemoveOne(s).lock.Sweep? && Justified(s, p, cr)
    ensures Justified(RemoveOne(s), p, cr)
  {
    RemovedMeaning(s.reg.planes[s.lock.plane], s.lock.id);
    Carry(s, RemoveOne(s), p, cr);
  }

  lemma LeaveJustify(s: Sys, id: ConnId, p: string, cr: string)
    requires Sound(s) && s.lock.Free? && Justified(s, p, cr)
    requires id in s.reg.table && id in Members(s.reg, s.reg.table[id].plane)
    ensures Justified(s.(lock := Leaving(s.reg.table[id].plane, id, s.reg.table[id].crs)), p, cr)
  {
    Carry(s, s.(lock := Leaving(s.reg.table[id].plane, id, s.reg.table[id].crs)), p, cr);
  }

  /** Updating a connection either leaves a pair's holder in place or records a revocation for the pair. */
  lemma UpdateJustify(trust: Trust, s: Sys, f: nat, p: string, cr: string)
    requires Sound(s) && Enabled(s, FlightUpdate(f)) && Justified(s, p, cr)
    ensures Justified(UpdateOne(trust, s, f), p, cr)
  {
    var t, flight := UpdateOne(trust, s, f), s.flights[f];
    var id := flight.todo[0];
    assert FlightOk(s, f);
    UpdatedCRsMeaning(trust, s.reg.table[id], flight.cr, flight.ca);
    if Revoking(s, p, cr) {
      var g :| g in s.flights && s.flights[g].plane == p && s.flights[g].cr == cr && s.flights[g].removed > 0;
      assert g in t.flights && t.flights[g].plane == p && t.flights[g].cr == cr && t.flights[g].removed > 0;
    }
    forall h | Stays(s, p, h) && Holds(s.reg.table, h, cr)
      ensures Justified(t, p, cr) || (Stays(t, p, h) && Holds(t.reg.table, h, cr))
    {
      if !Holds(t.reg.table, h, cr) {
        assert h == id && cr == flight.cr && flight.plane == p && t.flights[f].removed > 0;
      }
    }
    Carry(s, t, p, cr);
  }

  /** A flight goes only when it revoked nothing or its pair has a holder. */
  lemma FlightGoneJustify(s: Sys, t: Sys, f: nat, p: string, cr: string)
    requires f in s.flights && t == s.(flights := s.flights - {f}, lock := t.lock)
    requires t.lock == s.lock || (s.lock.Clean? && t.lock.Free?)
    requires Justified(s, p, cr)
    requires s.flights[f].removed == 0 || HasHolder(s, p, cr) || s.flights[f].plane != p || s.flights[f].cr != cr
    ensures Justified(t, p, cr)
  {
    if Revoking(s, p, cr) && !HasHolder(s, p, cr) {
      var g :| g in s.flights && s.flights[g].plane == p && s.flights[g].cr == cr && s.flights[g].removed > 0;
      assert g in t.flights;
    } else if HasHolder(s, p, cr) {
      var id :| Stays(s, p, id) && Holds(s.reg.table, id, cr);
      assert Stays(t, p, id);
    }
    Carry(s, t, p, cr);
  }
}
