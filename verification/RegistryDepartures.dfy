/** Every connection that leaves the registry is announced as unregistered exactly once, in every interleaving. */
module RegistryDepartures {
  import opened Sequences
  import opened RegistryKeys
  import opened Registry
  import opened RegistryRuns
  import opened RegistryCounters
  import opened RegistryInterleaving

  /** How often the listener was told that the connection left. */
  ghost function Departures(events: seq<Event>, id: ConnId): nat {
    if events == [] then 0
    else
      var e := events[|events| - 1];
      Departures(events[..|events| - 1], id) + (if e.Unregistered? && e.id == id then 1 else 0)
  }

  /** Registered at some time and no longer in the registry. */
  ghost predicate Gone(s: Sys, id: ConnId) {
    id in s.reg.table && id !in Members(s.reg, s.reg.table[id].plane)
  }

  /** Taken out by the unregistration that holds the lock, which has yet to notify. */
  ghost predicate Unannounced(s: Sys, id: ConnId) {
    s.lock.Sweep? && s.lock.id == id
  }

  ghost predicate ToldOnce(s: Sys, id: ConnId) {
    Departures(s.reg.events, id) == if Gone(s, id) && !Unannounced(s, id) then 1 else 0
  }

  lemma {:induction false} DeparturesAppend(a: seq<Event>, b: seq<Event>, id: ConnId)
    ensures Departures(a + b, id) == Departures(a, id) + Departures(b, id)
    decreases |b|
  {
    if b == [] {
      assert a + b == a;
    } else {
      assert (a + b)[..|a + b| - 1] == a + b[..|b| - 1];
      DeparturesAppend(a, b[..|b| - 1], id);
    }
  }

  lemma DeparturesOne(a: seq<Event>, e: Event, id: ConnId)
    ensures Departures(a + [e], id) == Departures(a, id) + (if e.Unregistered? && e.id == id then 1 else 0)
  {
  }

  lemma {:induction false} DeparturesAll(p: string, ids: seq<ConnId>, id: ConnId)
    requires Distinct(ids)
    ensures Departures(UnregisteredAll(p, ids), id) == if id in ids then 1 else 0
    decreases |ids|
  {
    if ids != [] {
      DeparturesAll(p, ids[1..], id);
      DeparturesAppend([Unregistered(p, ids[0])], UnregisteredAll(p, ids[1..]), id);
      DeparturesOne([], Unregistered(p, ids[0]), id);
      assert [] + [Unregistered(p, ids[0])] == [Unregistered(p, ids[0])];
    }
  }

  lemma RegisterTells(s: Sys, planeType: string, planeID: string, other: ConnId, crs: seq<string>, cert: string, id: ConnId)
    requires Sound(s) && Enabled(s, DoRegister(planeType, planeID, other, crs, cert)) && ToldOnce(s, id)
    ensures ToldOnce(s.(reg := Register(s.reg, planeType, planeID, other, crs, cert)), id)
  {
    DeparturesOne(s.reg.events, Registered(PlaneIdentifier(planeType, planeID), other, crs), id);
  }

  lemma DisconnectTells(s: Sys, p: string, id: ConnId)
    requires Sound(s) && s.lock.Free? && p in s.reg.planes && ToldOnce(s, id)
    ensures ToldOnce(s.(reg := DisconnectAll(s.reg, p)), id)
  {
    var t := s.(reg := DisconnectAll(s.reg, p));
    DeparturesAll(p, s.reg.planes[p], id);
    DeparturesAppend(s.reg.events, UnregisteredAll(p, s.reg.planes[p]), id);
    if id in s.reg.planes[p] {
      assert s.reg.table[id].plane == p;
    } else {
      assert Gone(t, id) == Gone(s, id);
    }
  }

  lemma RemoveTells(s: Sys, id: ConnId)
    requires Sound(s) && s.lock.Leaving? && ToldOnce(s, id)
    ensures ToldOnce(RemoveOne(s), id)
  {
    var p, gone := s.lock.plane, s.lock.id;
    RemovedMeaning(s.reg.planes[p], gone);
    DeparturesOne(s.reg.events, Unregistered(p, gone), id);
    assert s.reg.table[gone].plane == p;
    assert id != gone ==> Gone(RemoveOne(s), id) == Gone(s, id);
  }

  /** Steps that take no connection out and announce none. */
  lemma QuietTells(s: Sys, t: Sys, id: ConnId)
    requires ToldOnce(s, id) && t.reg.planes == s.reg.planes && t.reg.table.Keys == s.reg.table.Keys
    requires id in s.reg.table ==> t.reg.table[id].plane == s.reg.table[id].plane
    requires Unannounced(t, id) == Unannounced(s, id)
    requires Departures(t.reg.events, id) == Departures(s.reg.events, id)
    ensures ToldOnce(t, id)
  {
  }

  lemma AnnouncedTells(s: Sys, t: Sys, id: ConnId)
    requires s.lock.Sweep? && t.lock.Free? && Gone(s, s.lock.id) && ToldOnce(s, id)
    requires t.reg.planes == s.reg.planes && t.reg.table == s.reg.table
    requires Departures(t.reg.events, id) == Departures(s.reg.events, id) + (if id == s.lock.id then 1 else 0)
    ensures ToldOnce(t, id)
  {
  }

  lemma SweepTells(s: Sys, id: ConnId)
    requires s.lock.Sweep? && Gone(s, s.lock.id) && ToldOnce(s, id)
    ensures ToldOnce(SweepOne(s), id)
  {
    if s.lock.crs == [] {
      DeparturesOne(s.reg.events, Unregistered(s.lock.plane, s.lock.id), id);
      AnnouncedTells(s, SweepOne(s), id);
    } else {
      QuietTells(s, SweepOne(s), id);
    }
  }

  lemma UpdateTells(trust: Trust, s: Sys, f: nat, id: ConnId)
    requires Enabled(s, FlightUpdate(f)) && ToldOnce(s, id)
    ensures ToldOnce(UpdateOne(trust, s, f), id)
  {
    QuietTells(s, UpdateOne(trust, s, f), id);
  }

  lemma NotifyTells(trust: Trust, s: Sys, f: nat, id: ConnId)
    requires Enabled(s, FlightNotify(f)) && ToldOnce(s, id)
    ensures ToldOnce(Next(trust, s, FlightNotify(f)), id)
  {
    var other := s.flights[f].notify.value;
    DeparturesOne(s.reg.events, CRsChanged(s.flights[f].plane, other, s.reg.table[other].crs), id);
    QuietTells(s, Next(trust, s, FlightNotify(f)), id);
  }

  /** Every step tells of a departure exactly when it completes one. */
  lemma NextTells(trust: Trust, s: Sys, a: Act, id: ConnId)
    requires Sound(s) && Enabled(s, a) && ToldOnce(s, id)
    ensures ToldOnce(Next(trust, s, a), id)
  {
    match a
    case DoRegister(planeType, planeID, other, crs, cert) => RegisterTells(s, planeType, planeID, other, crs, cert, id);
    case DoDisconnect(p) => if p in s.reg.planes { DisconnectTells(s, p, id); }
    case UnregisterRemove => RemoveTells(s, id);
    case SweepCheck => SweepTells(s, id);
    case FlightNotify(f) => NotifyTells(trust, s, f, id);
    case FlightUpdate(f) => UpdateTells(trust, s, f, id);
    case _ => QuietTells(s, Next(trust, s, a), id);
  }

  lemma {:induction false} RunTells(trust: Trust, s: Sys, acts: seq<Act>, id: ConnId)
    requires Inv(s) && Legal(trust, s, acts) && ToldOnce(s, id)
    ensures ToldOnce(After(trust, s, acts), id)
    decreases |acts|
  {
    if acts != [] {
      NextKeeps(trust, s, acts[0]);
      NextTells(trust, s, acts[0], id);
      RunTells(trust, Next(trust, s, acts[0]), acts[1..], id);
    }
  }

  /** In every interleaving a connection is announced as unregistered once if it has left, and never otherwise. */
  lemma UnregisteredExactlyOnce(trust: Trust, acts: seq<Act>, id: ConnId)
    requires Legal(trust, Idle, acts)
    ensures ToldOnce(After(trust, Idle, acts), id)
  {
    RunTells(trust, Idle, acts, id);
  }
}
