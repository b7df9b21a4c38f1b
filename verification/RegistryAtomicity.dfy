/** The steps of an operation, taken without interruption, have the effect of the whole operation. */
module RegistryAtomicity {
  import opened Sequences
  import opened RegistryKeys
  import opened Registry
  import opened RegistryRuns
  import opened RegistryInterleaving

  /** The steps `acts` are possible from `s` and lead to `t`. */
  ghost predicate Leads(trust: Trust, s: Sys, acts: seq<Act>, t: Sys) {
    Legal(trust, s, acts) && After(trust, s, acts) == t
  }

  lemma First(trust: Trust, s: Sys, a: Act, acts: seq<Act>, t: Sys)
    requires Enabled(s, a) && Leads(trust, Next(trust, s, a), acts, t)
    ensures Leads(trust, s, [a] + acts, t)
  {
    assert ([a] + acts)[1..] == acts;
  }

  lemma {:induction false} Then(trust: Trust, s: Sys, a: seq<Act>, m: Sys, b: seq<Act>, t: Sys)
    requires Leads(trust, s, a, m) && Leads(trust, m, b, t)
    ensures Leads(trust, s, a + b, t)
    decreases |a|
  {
    if a == [] {
      assert a + b == b;
    } else {
      Then(trust, Next(trust, s, a[0]), a[1..], m, b, t);
      First(trust, s, a[0], a[1..] + b, t);
      assert [a[0]] + (a[1..] + b) == a + b;
    }
  }

  predicate OfScan(a: Act) { a.ScanStart? || a.ScanCheck? || a.ScanEnd? }

  predicate OfUnregister(a: Act) { a.UnregisterStart? || a.UnregisterRemove? || a.SweepCheck? }

  predicate OfFlight(a: Act) { a.FlightStart? || a.FlightUpdate? || a.FlightNotify? || a.FlightEnd? || a.CleanCheck? }

  // ----- GetForCR -------------------------------------------------------------------------------------------

  lemma {:induction false} ScanRest(trust: Trust, s: Sys) returns (acts: seq<Act>)
    requires s.lock.Scan?
    ensures forall a :: a in acts ==> OfScan(a)
    ensures var Scan(p, cr, todo, found) := s.lock;
            Leads(trust, s, acts, s.(lock := Free, reg := Rotate(s.reg, CounterKey(p, cr), found + Holders(s.reg.table, todo, cr)).reg))
    decreases |s.lock.todo|
  {
    var Scan(p, cr, todo, found) := s.lock;
    var t := s.(lock := Free, reg := Rotate(s.reg, CounterKey(p, cr), found + Holders(s.reg.table, todo, cr)).reg);
    if todo == [] {
      assert found + Holders(s.reg.table, todo, cr) == found;
      First(trust, s, ScanEnd, [], t);
      acts := [ScanEnd] + [];
    } else {
      var u := Next(trust, s, ScanCheck);
      var rest := ScanRest(trust, u);
      assert u.lock.found + Holders(s.reg.table, todo[1..], cr) == found + Holders(s.reg.table, todo, cr);
      First(trust, s, ScanCheck, rest, t);
      acts := [ScanCheck] + rest;
    }
  }

  lemma GetForCRWhole(trust: Trust, s: Sys, p: string, cr: string) returns (acts: seq<Act>)
    requires s.lock.Free?
    ensures forall a :: a in acts ==> OfScan(a)
    ensures Leads(trust, s, acts, s.(reg := GetForCR(s.reg, p, cr).reg))
  {
    var u := Next(trust, s, ScanStart(p, cr));
    var t := s.(reg := GetForCR(s.reg, p, cr).reg);
    if p in s.reg.planes {
      var rest := ScanRest(trust, u);
      assert [] + Authorised(s.reg, p, cr) == Authorised(s.reg, p, cr);
      First(trust, s, ScanStart(p, cr), rest, t);
      acts := [ScanStart(p, cr)] + rest;
    } else {
      First(trust, s, ScanStart(p, cr), [], t);
      acts := [ScanStart(p, cr)] + [];
    }
  }

  // ----- Unregister --------------------------------------------------------------------------------------------

  /** The counters once one CR of the list has been dealt with. */
  ghost function Swept1(s: Sys): Sys
    requires s.lock.Sweep? && s.lock.crs != []
  {
    var Sweep(p, id, crs, todo) := s.lock;
    s.(lock := Sweep(p, id, crs[1..], Members(s.reg, p)),
       reg := if Holders(s.reg.table, todo, crs[0]) == [] then s.reg.(counters := s.reg.counters - {CounterKey(p, crs[0])}) else s.reg)
  }

  lemma {:induction false} SweepCR(trust: Trust, s: Sys) returns (acts: seq<Act>)
    requires s.lock.Sweep? && s.lock.crs != []
    ensures forall a :: a in acts ==> OfUnregister(a)
    ensures Leads(trust, s, acts, Swept1(s))
    decreases |s.lock.todo|
  {
    var Sweep(p, id, crs, todo) := s.lock;
    var u := Next(trust, s, SweepCheck);
    if todo != [] && !Holds(s.reg.table, todo[0], crs[0]) {
      var rest := SweepCR(trust, u);
      First(trust, s, SweepCheck, rest, Swept1(s));
      acts := [SweepCheck] + rest;
    } else {
      First(trust, s, SweepCheck, [], u);
      acts := [SweepCheck] + [];
    }
  }

  lemma {:induction false} SweepRest(trust: Trust, s: Sys) returns (acts: seq<Act>)
    requires s.lock.Sweep? && s.lock.todo == Members(s.reg, s.lock.plane)
    ensures forall a :: a in acts ==> OfUnregister(a)
    ensures var Sweep(p, id, crs, todo) := s.lock;
            Leads(trust, s, acts, s.(lock := Free, reg := s.reg.(counters := DropOrphans(s.reg.counters, p, crs, s.reg.table, todo),
                                                                 events := s.reg.events + [Unregistered(p, id)])))
    decreases |s.lock.crs|
  {
    var Sweep(p, id, crs, todo) := s.lock;
    var t := s.(lock := Free, reg := s.reg.(counters := DropOrphans(s.reg.counters, p, crs, s.reg.table, todo),
                                            events := s.reg.events + [Unregistered(p, id)]));
    if crs == [] {
      assert DropOrphans(s.reg.counters, p, crs, s.reg.table, todo) == s.reg.counters;
      First(trust, s, SweepCheck, [], t);
      acts := [SweepCheck] + [];
    } else {
      var first := SweepCR(trust, s);
      var rest := SweepRest(trust, Swept1(s));
      DropOrphansOne(s.reg.counters, p, crs[0], s.reg.table, todo);
      DropOrphansAppend(s.reg.counters, p, [crs[0]], crs[1..], s.reg.table, todo);
      assert [crs[0]] + crs[1..] == crs;
      Then(trust, s, first, Swept1(s), rest, t);
      acts := first + rest;
    }
  }

  lemma UnregisterWhole(trust: Trust, s: Sys, p: string, id: ConnId) returns (acts: seq<Act>)
    requires s.lock.Free? && Consistent(s.reg)
    ensures forall a :: a in acts ==> OfUnregister(a)
    ensures Leads(trust, s, acts, s.(reg := Unregister(s.reg, p, id)))
  {
    var start := UnregisterStart(p, id);
    var t := s.(reg := Unregister(s.reg, p, id));
    if id !in Members(s.reg, p) {
      First(trust, s, start, [], t);
      acts := [start] + [];
    } else {
      var u := Next(trust, s, start);
      var v := Next(trust, u, UnregisterRemove);
      var rest := [];
      if v.lock.Sweep? { rest := SweepRest(trust, v); }
      First(trust, u, UnregisterRemove, rest, t);
      First(trust, s, start, [UnregisterRemove] + rest, t);
      acts := [start] + ([UnregisterRemove] + rest);
    }
  }

  // ----- RevalidateCR -------------------------------------------------------------------------------------------

  /** The flight after its first `k` connections. */
  ghost function Flown(trust: Trust, s: Sys, f: nat, p: string, cr: string, ca: string, ids: seq<ConnId>, k: nat): Sys
    requires k <= |ids|
  {
    var out := RevalidateEach(trust, s.reg, p, ids[..k], cr, ca);
    s.(reg := out.reg, flights := s.flights[f := Flight(p, cr, ca, ids[k..], None, out.updated, out.removed)])
  }

  /** The flight after its next connection. */
  ghost function Flew(trust: Trust, u: Sys, f: nat): Sys
    requires f in u.flights && u.flights[f].todo != []
  {
    var Flight(p, cr, ca, todo, _, updated, removed) := u.flights[f];
    var out := RevalidateNext(trust, Revalidation(u.reg, updated, removed), p, todo[0], cr, ca);
    u.(reg := out.reg, flights := u.flights[f := Flight(p, cr, ca, todo[1..], None, out.updated, out.removed)])
  }

  lemma FlyStep(trust: Trust, u: Sys, f: nat) returns (acts: seq<Act>)
    requires Enabled(u, FlightUpdate(f))
    ensures forall a :: a in acts ==> OfFlight(a)
    ensures Leads(trust, u, acts, Flew(trust, u, f))
  {
    var v, t := Next(trust, u, FlightUpdate(f)), Flew(trust, u, f);
    if v.flights[f].notify.Some? {
      assert Next(trust, v, FlightNotify(f)).flights == t.flights;
      First(trust, v, FlightNotify(f), [], t);
      First(trust, u, FlightUpdate(f), [FlightNotify(f)] + [], t);
      acts := [FlightUpdate(f)] + ([FlightNotify(f)] + []);
    } else {
      First(trust, u, FlightUpdate(f), [], t);
      acts := [FlightUpdate(f)] + [];
    }
  }

  lemma FlyOne(trust: Trust, s: Sys, f: nat, p: string, cr: string, ca: string, ids: seq<ConnId>, k: nat) returns (acts: seq<Act>)
    requires k < |ids|
    ensures forall a :: a in acts ==> OfFlight(a)
    ensures Leads(trust, Flown(trust, s, f, p, cr, ca, ids, k), acts, Flown(trust, s, f, p, cr, ca, ids, k + 1))
  {
    RevalidateEachSnoc(trust, s.reg, p, ids, k, cr, ca);
    assert ids[k..][1..] == ids[k + 1..];
    assert Flew(trust, Flown(trust, s, f, p, cr, ca, ids, k), f) == Flown(trust, s, f, p, cr, ca, ids, k + 1);
    acts := FlyStep(trust, Flown(trust, s, f, p, cr, ca, ids, k), f);
  }

  lemma {:induction false} FlyAll(trust: Trust, s: Sys, f: nat, p: string, cr: string, ca: string, ids: seq<ConnId>, k: nat) returns (acts: seq<Act>)
    requires k <= |ids|
    ensures forall a :: a in acts ==> OfFlight(a)
    ensures Leads(trust, Flown(trust, s, f, p, cr, ca, ids, k), acts, Flown(trust, s, f, p, cr, ca, ids, |ids|))
    decreases |ids| - k
  {
    if k == |ids| {
      acts := [];
    } else {
      var first := FlyOne(trust, s, f, p, cr, ca, ids, k);
      var rest := FlyAll(trust, s, f, p, cr, ca, ids, k + 1);
      Then(trust, Flown(trust, s, f, p, cr, ca, ids, k), first, Flown(trust, s, f, p, cr, ca, ids, k + 1), rest, Flown(trust, s, f, p, cr, ca, ids, |ids|));
      acts := first + rest;
    }
  }

  lemma {:induction false} CleanRest(trust: Trust, s: Sys) returns (acts: seq<Act>)
    requires s.lock.Clean? && s.lock.flight in s.flights
    ensures forall a :: a in acts ==> OfFlight(a)
    ensures var flight := s.flights[s.lock.flight];
            Leads(trust, s, acts, s.(lock := Free, flights := s.flights - {s.lock.flight},
                                     reg := if Holders(s.reg.table, s.lock.todo, flight.cr) == []
                                            then s.reg.(counters := s.reg.counters - {CounterKey(flight.plane, flight.cr)}) else s.reg))
    decreases |s.lock.todo|
  {
    var u := Next(trust, s, CleanCheck);
    if u.lock.Clean? {
      acts := CleanRest(trust, u);
      First(trust, s, CleanCheck, acts, After(trust, u, acts));
    } else {
      acts := [];
      First(trust, s, CleanCheck, [], u);
    }
    acts := [CleanCheck] + acts;
  }

  lemma RevalidateWhole(trust: Trust, s: Sys, f: nat, p: string, ns: string, name: string, ca: string) returns (acts: seq<Act>)
    requires s.lock.Free? && f !in s.flights && p in s.reg.planes && trust.parses(ca)
    ensures forall a :: a in acts ==> OfFlight(a)
    ensures Leads(trust, s, acts, s.(reg := RevalidateCR(trust, s.reg, p, CRKey(ns, name), ca).value.reg))
  {
    var cr, ids := CRKey(ns, name), s.reg.planes[p];
    var t := s.(reg := RevalidateCR(trust, s.reg, p, cr, ca).value.reg);
    var start := FlightStart(f, p, ns, name, ca);
    var u, v := Next(trust, s, start), Flown(trust, s, f, p, cr, ca, ids, |ids|);
    assert ids[..0] == [] && ids[0..] == ids && ids[..|ids|] == ids;
    assert u == Flown(trust, s, f, p, cr, ca, ids, 0);
    var fly := FlyAll(trust, s, f, p, cr, ca, ids, 0);
    var finish := Land(trust, s, f, p, cr, ca);
    Then(trust, u, fly, v, finish, t);
    First(trust, s, start, fly + finish, t);
    acts := [start] + (fly + finish);
  }

  lemma Land(trust: Trust, s: Sys, f: nat, p: string, cr: string, ca: string) returns (acts: seq<Act>)
    requires s.lock.Free? && f !in s.flights && p in s.reg.planes && trust.parses(ca)
    ensures forall a :: a in acts ==> OfFlight(a)
    ensures Leads(trust, Flown(trust, s, f, p, cr, ca, s.reg.planes[p], |s.reg.planes[p]|), acts,
                  s.(reg := RevalidateCR(trust, s.reg, p, cr, ca).value.reg))
  {
    var ids := s.reg.planes[p];
    assert ids[..|ids|] == ids;
    var v, t := Flown(trust, s, f, p, cr, ca, ids, |ids|), s.(reg := RevalidateCR(trust, s.reg, p, cr, ca).value.reg);
    assert v.flights - {f} == s.flights;
    var w := Next(trust, v, FlightEnd(f));
    var rest := [];
    if w.lock.Clean? {
      rest := CleanRest(trust, w);
      var key := CounterKey(p, cr);
      assert key !in v.reg.counters ==> v.reg.counters - {key} == v.reg.counters;
      assert After(trust, w, rest) == t;
    }
    First(trust, v, FlightEnd(f), rest, t);
    acts := [FlightEnd(f)] + rest;
  }
}
