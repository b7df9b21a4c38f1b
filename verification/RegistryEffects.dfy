/** What each operation of the registry brings about, and that it leaves everything else alone. */
module RegistryEffects {
  import opened Sequences
  import opened RegistryKeys
  import opened Registry
  import opened RegistryRuns
  import opened RegistryFairness

  // ----- registering -------------------------------------------------------------------------------------------

  /** Nothing outside plane `p` and connection `id` differs. */
  ghost predicate OthersSame(r: Reg, out: Reg, p: string, id: ConnId) {
    && (forall q :: q != p ==> Members(out, q) == Members(r, q) && (q in out.planes <==> q in r.planes))
    && (forall other :: other != id ==> (other in out.table <==> other in r.table))
    && (forall other :: other != id && other in r.table ==> out.table[other] == r.table[other])
  }

  /**
   A registered connection is the last of its plane, holds exactly the CRs and the certificate it came
   with, and can be selected for any of them at once; nothing else changes but the one event.
   */
  lemma RegisterEffect(r: Reg, planeType: string, planeID: string, id: ConnId, crs: seq<string>, cert: string)
    requires id !in r.table
    ensures var out, p := Register(r, planeType, planeID, id, crs, cert), planeType + "/" + planeID;
            && Members(out, p) == Members(r, p) + [id]
            && id in out.table && out.table[id] == Conn(p, cert, crs)
            && OthersSame(r, out, p, id) && out.counters == r.counters
            && out.events == r.events + [Registered(p, id, crs)]
            && (forall cr :: Holds(out.table, id, cr) <==> cr in crs)
            && (forall cr :: cr in crs ==> id in Authorised(out, p, cr) && GetForCR(out, p, cr).choice.Some?)
  {
    var out, p := Register(r, planeType, planeID, id, crs, cert), planeType + "/" + planeID;
    forall cr | cr in crs ensures id in Authorised(out, p, cr) && GetForCR(out, p, cr).choice.Some? {
      HoldersMeaning(out.table, Members(out, p), cr);
      assert id in Members(out, p);
    }
  }

  /** Re-validation decides on the certificate a connection registered with. */
  lemma RegisteredCertDecides(trust: Trust, r: Reg, planeType: string, planeID: string, id: ConnId, crs: seq<string>, cert: string, ns: string, name: string, ca: string)
    requires Consistent(r) && Allowed(r, OpRegister(planeType, planeID, id, crs, cert)) && trust.parses(ca)
    ensures var p := planeType + "/" + planeID;
            var out := Apply(trust, Register(r, planeType, planeID, id, crs, cert), OpRevalidate(p, ns, name, ca));
            id in out.table && (Holds(out.table, id, ns + "/" + name) <==> trust.verifies(cert, ca))
  {
    var mid, p := Register(r, planeType, planeID, id, crs, cert), planeType + "/" + planeID;
    RegisterConsistent(r, planeType, planeID, id, crs, cert);
    RevalidateEffect(trust, mid, p, ns, name, ca, id);
  }

  /** A re-validation of CR namespace/name settles exactly that CR, for the members of that plane, by their certificates. */
  lemma RevalidateEffect(trust: Trust, r: Reg, p: string, ns: string, name: string, ca: string, id: ConnId)
    requires Consistent(r) && trust.parses(ca) && id in r.table
    ensures var out := Apply(trust, r, OpRevalidate(p, ns, name, ca));
            && out.planes == r.planes && id in out.table
            && (id in Members(r, p) ==> (Holds(out.table, id, ns + "/" + name) <==> trust.verifies(r.table[id].cert, ca)))
            && (id !in Members(r, p) ==> out.table[id] == r.table[id])
            && (forall cr :: cr != ns + "/" + name ==> (Holds(out.table, id, cr) <==> Holds(r.table, id, cr)))
  {
    if p in r.planes {
      RevalidationSettles(trust, r, p, CRKey(ns, name), ca);
      var out := RevalidateCR(trust, r, p, CRKey(ns, name), ca).value.reg;
      assert SettledAt(trust, r.table[id], out.table[id], id in r.planes[p], CRKey(ns, name), ca);
    }
  }

  // ----- leaving -------------------------------------------------------------------------------------------------

  /** `left` is `all` with the one occurrence of `id` taken out. */
  ghost predicate TakenFrom(all: seq<ConnId>, id: ConnId, left: seq<ConnId>) {
    exists k :: 0 <= k < |all| && all[k] == id && left == all[..k] + all[k + 1..] && id !in left
  }

  /** An unregistered connection is gone from its plane, and a plane with no connection is gone too. */
  lemma UnregisterEffect(r: Reg, p: string, id: ConnId)
    requires Consistent(r)
    ensures var out := Unregister(r, p, id);
            && id !in Members(out, p)
            && (if id in Members(r, p) then TakenFrom(r.planes[p], id, Members(out, p)) && out.events == r.events + [Unregistered(p, id)]
                else out == r)
            && (p in out.planes <==> Members(out, p) != [])
            && OthersSame(r, out, p, id) && out.table == r.table
            && (forall key :: key in out.counters ==> key in r.counters && out.counters[key] == r.counters[key])
  {
    if id in Members(r, p) {
      RemovedMeaning(r.planes[p], id);
      var k := FirstIndex(r.planes[p], id);
      assert r.planes[p][k] == id;
    }
  }

  /** Unregistering takes away only the counters of pairs that nobody is authorised for any more, or of a plane that is gone. */
  lemma UnregisterCounters(r: Reg, p: string, id: ConnId, key: string)
    requires Consistent(r) && key in r.counters && key !in Unregister(r, p, id).counters
    ensures var out := Unregister(r, p, id);
            || (p !in out.planes && (key == p || HasPrefix(key, p + "/")))
            || exists cr :: key == CounterKey(p, cr) && Holds(r.table, id, cr) && Authorised(out, p, cr) == []
  {
    var out := Unregister(r, p, id);
    if p in out.planes {
      var left := Removed(r.planes[p], id);
      assert Orphaned(key, p, r.table[id].crs, r.table, left);
      var cr :| cr in r.table[id].crs && key == CounterKey(p, cr) && Holders(r.table, left, cr) == [];
      assert Authorised(out, p, cr) == [];
    }
  }

  lemma {:induction false} AnnouncedAt(p: string, ids: seq<ConnId>, i: nat)
    requires i < |ids|
    ensures |UnregisteredAll(p, ids)| == |ids| && UnregisteredAll(p, ids)[i] == Unregistered(p, ids[i])
    decreases |ids|
  {
    if i > 0 { AnnouncedAt(p, ids[1..], i - 1); } else if |ids| > 1 { AnnouncedAt(p, ids[1..], 0); }
  }

  /** Disconnecting a plane leaves none of its connections and none of its counters, and announces each connection once. */
  lemma DisconnectEffect(r: Reg, p: string)
    requires Consistent(r)
    ensures var out := DisconnectAll(r, p);
            && Members(out, p) == [] && p !in out.planes && out.table == r.table
            && (forall q :: q != p ==> Members(out, q) == Members(r, q) && (q in out.planes <==> q in r.planes))
            && |out.events| == |r.events| + |Members(r, p)| && r.events <= out.events
            && (forall i :: 0 <= i < |Members(r, p)| ==> out.events[|r.events| + i] == Unregistered(p, Members(r, p)[i]))
            && (p in r.planes ==> forall key :: key in out.counters <==> key in r.counters && key != p && !HasPrefix(key, p + "/"))
            && (forall key :: key in out.counters ==> key in r.counters && out.counters[key] == r.counters[key])
  {
    forall i | 0 <= i < |Members(r, p)|
      ensures |UnregisteredAll(p, Members(r, p))| == |Members(r, p)| && UnregisteredAll(p, Members(r, p))[i] == Unregistered(p, Members(r, p)[i])
    {
      AnnouncedAt(p, Members(r, p), i);
    }
  }

  // ----- selecting -----------------------------------------------------------------------------------------------

  /** GetForCR finds a connection exactly when one is authorised, and then gives an authorised one. */
  lemma GetForCREffect(r: Reg, p: string, cr: string)
    ensures var choice := GetForCR(r, p, cr).choice;
            && (choice.Some? <==> exists id :: id in Members(r, p) && Holds(r.table, id, cr))
            && (choice.Some? ==> choice.value in Members(r, p) && Holds(r.table, choice.value, cr))
            && (choice.None? ==> GetForCR(r, p, cr).reg == r)
  {
    HoldersMeaning(r.table, Members(r, p), cr);
    var ids := Authorised(r, p, cr);
    if ids != [] {
      assert ids[0] in ids;
      assert GetForCR(r, p, cr).choice.value in ids;
    }
  }

  /** The run is possible, and the plane's members stay `ids`. */
  ghost predicate SteadyPlane(trust: Trust, r: Reg, ops: seq<Op>, p: string, ids: seq<ConnId>)
    decreases |ops|
  {
    && Members(r, p) == ids
    && (ops != [] ==> Allowed(r, ops[0]) && SteadyPlane(trust, Apply(trust, r, ops[0]), ops[1..], p, ids))
  }

  /** The connections the run's Get calls for the plane pick, in order. */
  ghost function PlanePicks(trust: Trust, r: Reg, ops: seq<Op>, p: string): seq<ConnId>
    decreases |ops|
  {
    if ops == [] then []
    else
      (if ops[0] == OpGet(p) && Get(r, p).choice.Some? then [Get(r, p).choice.value] else [])
      + PlanePicks(trust, Apply(trust, r, ops[0]), ops[1..], p)
  }

  function GetsFor(ops: seq<Op>, p: string): nat {
    if ops == [] then 0 else (if ops[0] == OpGet(p) then 1 else 0) + GetsFor(ops[1..], p)
  }

  /** Only Get on the plane itself moves its counter while the plane stays. */
  lemma PlaneCounterFrame(trust: Trust, r: Reg, op: Op, p: string)
    requires Consistent(r) && Allowed(r, op) && op != OpGet(p) && p in r.planes && p in Apply(trust, r, op).planes
    ensures Counter(Apply(trust, r, op).counters, p) == Counter(r.counters, p)
  {
    match op
    case OpUnregister(q, id) =>
      if id in Members(r, q) {
        var left := Removed(r.planes[q], id);
        if left == [] { PlaneHasNoPlanePrefix(q, p); } else { NotOrphaned(r, q, r.table[id].crs, left, p); }
      }
    case OpGetForCR(q, cr) => if q in r.planes { CounterKeyNotPlane(q, cr); }
    case OpDisconnect(q) => if q in r.planes { PlaneHasNoPlanePrefix(q, p); }
    case OpRevalidate(q, ns, name, ca) =>
      if q in r.planes {
        RevalidateEachConsistent(trust, r, q, r.planes[q], CRKey(ns, name), ca);
        CounterKeyNotPlane(q, CRKey(ns, name));
      }
    case _ =>
  }

  lemma NotOrphaned(r: Reg, q: string, removed: seq<string>, left: seq<ConnId>, p: string)
    requires IsPlane(p) && IsPlane(q)
    ensures !Orphaned(p, q, removed, r.table, left)
  {
    forall cr { CounterKeyNotPlane(q, cr); }
  }

  lemma {:induction false} PlanePicksGoRound(trust: Trust, r: Reg, ops: seq<Op>, p: string, ids: seq<ConnId>)
    requires Consistent(r) && SteadyPlane(trust, r, ops, p, ids) && ids != []
    ensures GoesRound(PlanePicks(trust, r, ops, p), ids, Counter(r.counters, p))
    ensures |PlanePicks(trust, r, ops, p)| == GetsFor(ops, p)
    decreases |ops|
  {
    if ops != [] {
      var next, c := Apply(trust, r, ops[0]), Counter(r.counters, p);
      var all, rest := PlanePicks(trust, r, ops, p), PlanePicks(trust, next, ops[1..], p);
      ApplyConsistent(trust, r, ops[0]);
      PlanePicksGoRound(trust, next, ops[1..], p, ids);
      if ops[0] == OpGet(p) {
        RotateTurns(r, p, ids);
        assert all[0] == At(ids, c) && all[1..] == rest;
      } else {
        assert [] + rest == rest;
        PlaneCounterFrame(trust, r, ops[0], p);
      }
    }
  }

  /** While a plane's connections stay the same, the Get calls for it pick each equally often, give or take one. */
  lemma GetFair(trust: Trust, r: Reg, ops: seq<Op>, p: string, ids: seq<ConnId>)
    requires Consistent(r) && SteadyPlane(trust, r, ops, p, ids) && ids != []
    ensures |PlanePicks(trust, r, ops, p)| == GetsFor(ops, p) && Even(PlanePicks(trust, r, ops, p), ids)
  {
    PlanePicksGoRound(trust, r, ops, p, ids);
    RoundIsEven(PlanePicks(trust, r, ops, p), ids, Counter(r.counters, p));
  }
}
