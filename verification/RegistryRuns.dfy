/** Serialised runs of the registry: what every operation keeps, the event mirror, re-validation. */
module RegistryRuns {
  import opened Sequences
  import opened RegistryKeys
  import opened Registry

  datatype Op =
    | OpRegister(planeType: string, planeID: string, id: ConnId, crs: seq<string>, cert: string)
    | OpUnregister(plane: string, id: ConnId)
    | OpGet(plane: string)
    | OpGetForCR(plane: string, cr: string)
    | OpDisconnect(plane: string)
    | OpRevalidate(plane: string, crNamespace: string, crName: string, ca: string)

  function CRKey(crNamespace: string, crName: string): string {
    crNamespace + "/" + crName
  }

  /** Registered planes come from validated plane types and IDs, connection ids are fresh, CR keys are not empty. */
  predicate Allowed(r: Reg, op: Op) {
    op.OpRegister? ==>
      SlashFree(op.planeType) && SlashFree(op.planeID) && op.id !in r.table && forall cr :: cr in op.crs ==> cr != ""
  }

  function Apply(trust: Trust, r: Reg, op: Op): Reg {
    match op
    case OpRegister(planeType, planeID, id, crs, cert) => Register(r, planeType, planeID, id, crs, cert)
    case OpUnregister(p, id) => Unregister(r, p, id)
    case OpGet(p) => Get(r, p).reg
    case OpGetForCR(p, cr) => GetForCR(r, p, cr).reg
    case OpDisconnect(p) => DisconnectAll(r, p)
    case OpRevalidate(p, ns, name, ca) =>
      match RevalidateCR(trust, r, p, CRKey(ns, name), ca)
      case None => r
      case Some(out) => out.reg
  }

  // ----- consistency ----------------------------------------------------------------------------------

  lemma RegisterConsistent(r: Reg, planeType: string, planeID: string, id: ConnId, crs: seq<string>, cert: string)
    requires Consistent(r) && Allowed(r, OpRegister(planeType, planeID, id, crs, cert))
    ensures Consistent(Register(r, planeType, planeID, id, crs, cert))
  {
    PlaneIdentifierIsPlane(planeType, planeID);
    var p, out := PlaneIdentifier(planeType, planeID), Register(r, planeType, planeID, id, crs, cert);
    assert forall q, i :: q in r.planes && 0 <= i < |r.planes[q]| ==> r.planes[q][i] != id;
    assert forall i :: 0 <= i < |crs| ==> crs[i] in crs;
  }

  lemma UnregisterConsistent(r: Reg, p: string, id: ConnId)
    requires Consistent(r)
    ensures Consistent(Unregister(r, p, id))
  {
    if id in Members(r, p) {
      var left := Removed(r.planes[p], id);
      RemovedMeaning(r.planes[p], id);
      forall i | 0 <= i < |left| ensures left[i] in r.table && r.table[left[i]].plane == p {
        assert left[i] in r.planes[p];
      }
    }
  }

  lemma RevalidateOneConsistent(trust: Trust, r: Reg, p: string, id: ConnId, cr: string, ca: string)
    requires Consistent(r) && cr != ""
    ensures Consistent(RevalidateOne(trust, r, p, id, cr, ca))
    ensures RevalidateOne(trust, r, p, id, cr, ca).planes == r.planes
    ensures RevalidateOne(trust, r, p, id, cr, ca).counters == r.counters
  {
    if id in r.table {
      WithoutMeaning(r.table[id].crs, cr);
      var crs := UpdatedCRs(trust, r.table[id], cr, ca);
      forall i | 0 <= i < |crs| ensures crs[i] != "" {
        assert crs[i] in crs;
        assert crs[i] in r.table[id].crs || crs[i] == cr;
      }
    }
  }

  lemma {:induction false} RevalidateEachConsistent(trust: Trust, r: Reg, p: string, ids: seq<ConnId>, cr: string, ca: string)
    requires Consistent(r) && cr != ""
    ensures var out := RevalidateEach(trust, r, p, ids, cr, ca).reg;
            Consistent(out) && out.planes == r.planes && out.counters == r.counters
    decreases |ids|
  {
    if ids != [] {
      var init := ids[..|ids| - 1];
      RevalidateEachConsistent(trust, r, p, init, cr, ca);
      RevalidateOneConsistent(trust, RevalidateEach(trust, r, p, init, cr, ca).reg, p, ids[|ids| - 1], cr, ca);
    }
  }

  /** Every operation keeps the registry consistent. */
  lemma ApplyConsistent(trust: Trust, r: Reg, op: Op)
    requires Consistent(r) && Allowed(r, op)
    ensures Consistent(Apply(trust, r, op))
  {
    match op
    case OpRegister(planeType, planeID, id, crs, cert) => RegisterConsistent(r, planeType, planeID, id, crs, cert);
    case OpUnregister(p, id) => UnregisterConsistent(r, p, id);
    case OpGet(p) =>
    case OpGetForCR(p, cr) =>
    case OpDisconnect(p) =>
    case OpRevalidate(p, ns, name, ca) => RevalidateEachConsistent(trust, r, p, Members(r, p), CRKey(ns, name), ca);
  }

  // ----- the event mirror -------------------------------------------------------------------------------

  datatype Mirrored = Mirrored(plane: string, crs: seq<string>)

  /** A listener that keeps an entry per connection: upsert on register and change, remove on unregister. */
  function Replay(events: seq<Event>): map<ConnId, Mirrored> {
    if events == [] then map[]
    else Note(Replay(events[..|events| - 1]), events[|events| - 1])
  }

  function Note(m: map<ConnId, Mirrored>, e: Event): map<ConnId, Mirrored> {
    match e
    case Registered(p, id, crs) => m[id := Mirrored(p, crs)]
    case Unregistered(p, id) => m - {id}
    case CRsChanged(p, id, crs) => m[id := Mirrored(p, crs)]
  }

  /** Connection id to plane and authorised CRs, for the connections in the registry. */
  ghost function Contents(r: Reg): map<ConnId, Mirrored> {
    map id | id in r.table && Live(r, id) :: Mirrored(r.table[id].plane, r.table[id].crs)
  }

  ghost predicate Live(r: Reg, id: ConnId) {
    id in r.table && id in Members(r, r.table[id].plane)
  }

  /** The listener's entry for one connection is what the registry holds. */
  ghost predicate Agrees(r: Reg, m: map<ConnId, Mirrored>, id: ConnId) {
    && (id in m <==> Live(r, id))
    && (id in m ==> m[id] == Mirrored(r.table[id].plane, r.table[id].crs))
  }

  ghost predicate Mirrors(r: Reg) {
    forall id :: Agrees(r, Replay(r.events), id)
  }

  lemma MirrorsIsEquality(r: Reg)
    ensures Mirrors(r) <==> Replay(r.events) == Contents(r)
  {
    var m := Replay(r.events);
    if Mirrors(r) {
      assert forall id :: Agrees(r, m, id) ==> (id in m <==> id in Contents(r));
      assert m.Keys == Contents(r).Keys;
      forall id | id in m ensures m[id] == Contents(r)[id] { assert Agrees(r, m, id); }
    }
    if m == Contents(r) {
      forall id ensures Agrees(r, m, id) { assert id in m <==> id in Contents(r); }
    }
  }

  lemma ReplaySnoc(events: seq<Event>, e: Event)
    ensures Replay(events + [e]) == Note(Replay(events), e)
  {
  }

  lemma RegisterMirrors(r: Reg, planeType: string, planeID: string, id: ConnId, crs: seq<string>, cert: string, other: ConnId)
    requires Consistent(r) && Agrees(r, Replay(r.events), other) && Allowed(r, OpRegister(planeType, planeID, id, crs, cert))
    ensures var out := Register(r, planeType, planeID, id, crs, cert); Agrees(out, Replay(out.events), other)
  {
    var p, out := PlaneIdentifier(planeType, planeID), Register(r, planeType, planeID, id, crs, cert);
    ReplaySnoc(r.events, Registered(p, id, crs));
    assert Members(out, p) == Members(r, p) + [id];
    if other != id && other in r.table && r.table[other].plane != p {
      assert Members(out, r.table[other].plane) == Members(r, r.table[other].plane);
    }
  }

  lemma UnregisterMirrors(r: Reg, p: string, id: ConnId, other: ConnId)
    requires Consistent(r) && Agrees(r, Replay(r.events), other)
    ensures var out := Unregister(r, p, id); Agrees(out, Replay(out.events), other)
  {
    if id in Members(r, p) {
      var out := Unregister(r, p, id);
      RemovedMeaning(r.planes[p], id);
      ReplaySnoc(r.events, Unregistered(p, id));
      assert r.table[id].plane == p;
      assert Members(out, p) == Removed(r.planes[p], id);
      if other in r.table && r.table[other].plane != p {
        assert Members(out, r.table[other].plane) == Members(r, r.table[other].plane);
      }
    }
  }

  lemma {:induction false} ReplayDisconnect(events: seq<Event>, p: string, ids: seq<ConnId>, id: ConnId)
    ensures var m, n := Replay(events), Replay(events + UnregisteredAll(p, ids));
            && (id in n <==> id in m && id !in ids)
            && (id in n ==> n[id] == m[id])
    decreases |ids|
  {
    if ids == [] {
      assert events + UnregisteredAll(p, ids) == events;
    } else {
      var first := Unregistered(p, ids[0]);
      assert events + UnregisteredAll(p, ids) == events + [first] + UnregisteredAll(p, ids[1..]);
      ReplayDisconnect(events + [first], p, ids[1..], id);
      ReplaySnoc(events, first);
    }
  }

  lemma DisconnectMirrors(r: Reg, p: string, other: ConnId)
    requires Consistent(r) && Agrees(r, Replay(r.events), other)
    ensures var out := DisconnectAll(r, p); Agrees(out, Replay(out.events), other)
  {
    if p in r.planes {
      ReplayDisconnect(r.events, p, r.planes[p], other);
      if other in r.planes[p] {
        var i :| 0 <= i < |r.planes[p]| && r.planes[p][i] == other;
        assert r.table[other].plane == p;
      }
    }
  }

  lemma ChangeMirrors(r: Reg, p: string, id: ConnId, crs: seq<string>, other: ConnId)
    requires Agrees(r, Replay(r.events), other) && id in r.table && r.table[id].plane == p && id in Members(r, p)
    ensures var out := r.(table := r.table[id := r.table[id].(crs := crs)], events := r.events + [CRsChanged(p, id, crs)]);
            Agrees(out, Replay(out.events), other)
  {
  }

  lemma RevalidateOneMirrors(trust: Trust, r: Reg, p: string, id: ConnId, cr: string, ca: string, other: ConnId)
    requires Consistent(r) && Agrees(r, Replay(r.events), other) && id in Members(r, p)
    ensures var out := RevalidateOne(trust, r, p, id, cr, ca); Agrees(out, Replay(out.events), other)
  {
    assert r.table[id].plane == p;
    ChangeMirrors(r, p, id, UpdatedCRs(trust, r.table[id], cr, ca), other);
  }

  lemma {:induction false} RevalidateEachMirrors(trust: Trust, r: Reg, p: string, ids: seq<ConnId>, cr: string, ca: string, other: ConnId)
    requires Consistent(r) && Agrees(r, Replay(r.events), other) && cr != ""
    requires forall i :: 0 <= i < |ids| ==> ids[i] in Members(r, p)
    ensures var out := RevalidateEach(trust, r, p, ids, cr, ca).reg; Agrees(out, Replay(out.events), other)
    decreases |ids|
  {
    if ids != [] {
      var init := ids[..|ids| - 1];
      var before := RevalidateEach(trust, r, p, init, cr, ca).reg;
      RevalidateEachMirrors(trust, r, p, init, cr, ca, other);
      RevalidateEachConsistent(trust, r, p, init, cr, ca);
      RevalidateOneMirrors(trust, before, p, ids[|ids| - 1], cr, ca, other);
    }
  }

  lemma ApplyMirrors(trust: Trust, r: Reg, op: Op, other: ConnId)
    requires Consistent(r) && Agrees(r, Replay(r.events), other) && Allowed(r, op)
    ensures var out := Apply(trust, r, op); Agrees(out, Replay(out.events), other)
  {
    match op
    case OpRegister(planeType, planeID, id, crs, cert) => RegisterMirrors(r, planeType, planeID, id, crs, cert, other);
    case OpUnregister(p, id) => UnregisterMirrors(r, p, id, other);
    case OpGet(p) =>
    case OpGetForCR(p, cr) =>
    case OpDisconnect(p) => DisconnectMirrors(r, p, other);
    case OpRevalidate(p, ns, name, ca) => RevalidateEachMirrors(trust, r, p, Members(r, p), CRKey(ns, name), ca, other);
  }

  ghost predicate Serialised(trust: Trust, r: Reg, ops: seq<Op>)
    decreases |ops|
  {
    ops == [] || (Allowed(r, ops[0]) && Serialised(trust, Apply(trust, r, ops[0]), ops[1..]))
  }

  function ApplyAll(trust: Trust, r: Reg, ops: seq<Op>): Reg
    decreases |ops|
  {
    if ops == [] then r else ApplyAll(trust, Apply(trust, r, ops[0]), ops[1..])
  }

  lemma {:induction false} RunMirrors(trust: Trust, r: Reg, ops: seq<Op>)
    requires Consistent(r) && Mirrors(r) && Serialised(trust, r, ops)
    ensures Consistent(ApplyAll(trust, r, ops)) && Mirrors(ApplyAll(trust, r, ops))
    decreases |ops|
  {
    if ops != [] {
      ApplyConsistent(trust, r, ops[0]);
      forall id ensures Agrees(Apply(trust, r, ops[0]), Replay(Apply(trust, r, ops[0]).events), id) {
        ApplyMirrors(trust, r, ops[0], id);
      }
      RunMirrors(trust, Apply(trust, r, ops[0]), ops[1..]);
    }
  }

  /** Event mirror: over every serialised run, replaying the listener's events rebuilds exactly the registry. */
  lemma EventMirror(trust: Trust, ops: seq<Op>)
    requires Serialised(trust, Empty, ops)
    ensures Replay(ApplyAll(trust, Empty, ops).events) == Contents(ApplyAll(trust, Empty, ops))
  {
    RunMirrors(trust, Empty, ops);
    MirrorsIsEquality(ApplyAll(trust, Empty, ops));
  }

  // ----- re-validation ------------------------------------------------------------------------------------

  ghost function ValidIds(trust: Trust, r: Reg, ids: seq<ConnId>, ca: string): set<ConnId> {
    set id | id in ids && id in r.table && trust.verifies(r.table[id].cert, ca)
  }

  ghost function HolderIds(r: Reg, ids: seq<ConnId>, cr: string): set<ConnId> {
    set id | id in ids && Holds(r.table, id, cr)
  }

  /** What re-validating `ids` does to one connection: `cr` goes by its certificate, all else stays. */
  ghost predicate SettledAt(trust: Trust, before: Conn, now: Conn, touched: bool, cr: string, ca: string) {
    && now.cert == before.cert && now.plane == before.plane
    && (cr in now.crs <==> if touched then trust.verifies(before.cert, ca) else cr in before.crs)
    && (!touched ==> now == before)
    && forall other :: other != cr ==> (other in now.crs <==> other in before.crs)
  }

  /** What re-validating distinct connections one by one comes to. */
  ghost predicate Settled(trust: Trust, r: Reg, ids: seq<ConnId>, cr: string, ca: string, out: Revalidation) {
    && SettledTable(trust, r.table, ids, cr, ca, out.reg.table)
    && out.updated == |ValidIds(trust, r, ids, ca) - HolderIds(r, ids, cr)|
    && out.removed == |HolderIds(r, ids, cr) - ValidIds(trust, r, ids, ca)|
  }

  ghost predicate SettledTable(trust: Trust, before: map<ConnId, Conn>, ids: seq<ConnId>, cr: string, ca: string, now: map<ConnId, Conn>) {
    now.Keys == before.Keys && forall id :: id in before ==> SettledAt(trust, before[id], now[id], id in ids, cr, ca)
  }

  lemma OneSettles(trust: Trust, r: Reg, p: string, id: ConnId, cr: string, ca: string)
    requires id in r.table
    ensures SettledTable(trust, r.table, [id], cr, ca, RevalidateOne(trust, r, p, id, cr, ca).table)
  {
    UpdatedCRsMeaning(trust, r.table[id], cr, ca);
  }

  lemma SettledThen(trust: Trust, a: map<ConnId, Conn>, init: seq<ConnId>, b: map<ConnId, Conn>, id: ConnId, c: map<ConnId, Conn>, cr: string, ca: string)
    requires SettledTable(trust, a, init, cr, ca, b) && SettledTable(trust, b, [id], cr, ca, c) && id in a && id !in init
    ensures b[id] == a[id]
    ensures SettledTable(trust, a, init + [id], cr, ca, c)
  {
  }

  lemma {:induction false} RevalidateEachSettles(trust: Trust, r: Reg, p: string, ids: seq<ConnId>, cr: string, ca: string)
    requires Distinct(ids) && forall i :: 0 <= i < |ids| ==> ids[i] in r.table
    ensures Settled(trust, r, ids, cr, ca, RevalidateEach(trust, r, p, ids, cr, ca))
    decreases |ids|
  {
    if ids != [] {
      var init, id := ids[..|ids| - 1], ids[|ids| - 1];
      assert ids == init + [id] && id !in init;
      RevalidateEachSettles(trust, r, p, init, cr, ca);
      var before := RevalidateEach(trust, r, p, init, cr, ca).reg;
      OneSettles(trust, before, p, id, cr, ca);
      SettledThen(trust, r.table, init, before.table, id, RevalidateOne(trust, before, p, id, cr, ca).table, cr, ca);
      CountsGrow(trust, r, ids, cr, ca);
    }
  }

  lemma CountsGrow(trust: Trust, r: Reg, ids: seq<ConnId>, cr: string, ca: string)
    requires ids != [] && Distinct(ids)
    ensures var init, id := ids[..|ids| - 1], ids[|ids| - 1];
            && |ValidIds(trust, r, ids, ca) - HolderIds(r, ids, cr)| ==
               |ValidIds(trust, r, init, ca) - HolderIds(r, init, cr)| + (if Grants(trust, r.table, id, cr, ca) then 1 else 0)
            && |HolderIds(r, ids, cr) - ValidIds(trust, r, ids, ca)| ==
               |HolderIds(r, init, cr) - ValidIds(trust, r, init, ca)| + (if Revokes(trust, r.table, id, cr, ca) then 1 else 0)
  {
    var init, id := ids[..|ids| - 1], ids[|ids| - 1];
    var valid, holds := id in r.table && trust.verifies(r.table[id].cert, ca), Holds(r.table, id, cr);
    ValidIdsGrow(trust, r, ids, ca);
    HolderIdsGrow(r, ids, cr);
    DifferenceGrows(ValidIds(trust, r, init, ca), HolderIds(r, init, cr), id, valid, holds);
    DifferenceGrows(HolderIds(r, init, cr), ValidIds(trust, r, init, ca), id, holds, valid);
  }

  lemma ValidIdsGrow(trust: Trust, r: Reg, ids: seq<ConnId>, ca: string)
    requires ids != [] && Distinct(ids)
    ensures var init, id := ids[..|ids| - 1], ids[|ids| - 1];
            && id !in ValidIds(trust, r, init, ca)
            && ValidIds(trust, r, ids, ca) ==
               ValidIds(trust, r, init, ca) + (if id in r.table && trust.verifies(r.table[id].cert, ca) then {id} else {})
  {
  }

  lemma HolderIdsGrow(r: Reg, ids: seq<ConnId>, cr: string)
    requires ids != [] && Distinct(ids)
    ensures var init, id := ids[..|ids| - 1], ids[|ids| - 1];
            && id !in HolderIds(r, init, cr)
            && HolderIds(r, ids, cr) == HolderIds(r, init, cr) + (if Holds(r.table, id, cr) then {id} else {})
  {
  }

  lemma DifferenceGrows(v: set<ConnId>, h: set<ConnId>, id: ConnId, inV: bool, inH: bool)
    requires id !in v && id !in h
    ensures |(v + (if inV then {id} else {})) - (h + (if inH then {id} else {}))| == |v - h| + (if inV && !inH then 1 else 0)
  {
    assert (v + (if inV then {id} else {})) - (h + (if inH then {id} else {})) == (v - h) + (if inV && !inH then {id} else {});
  }

  /**
   After a serialised re-validation, exactly the connections of the plane whose certificate
   verifies are authorised for the CR, and the two counts are the sizes of the set differences.
   */
  lemma RevalidationSettles(trust: Trust, r: Reg, p: string, cr: string, ca: string)
    requires Consistent(r) && trust.parses(ca) && p in r.planes
    ensures var out := RevalidateCR(trust, r, p, cr, ca);
            out.Some? && Settled(trust, r, r.planes[p], cr, ca, out.value) && out.value.reg.planes == r.planes
  {
    RevalidateEachSettles(trust, r, p, r.planes[p], cr, ca);
    RevalidateEachPlanes(trust, r, p, r.planes[p], cr, ca);
  }

  lemma {:induction false} RevalidateEachPlanes(trust: Trust, r: Reg, p: string, ids: seq<ConnId>, cr: string, ca: string)
    ensures RevalidateEach(trust, r, p, ids, cr, ca).reg.planes == r.planes
    decreases |ids|
  {
    if ids != [] { RevalidateEachPlanes(trust, r, p, ids[..|ids| - 1], cr, ca); }
  }

  lemma {:induction false} RevalidateEachIdle(trust: Trust, r: Reg, p: string, ids: seq<ConnId>, cr: string, ca: string)
    requires forall i :: 0 <= i < |ids| ==> !Grants(trust, r.table, ids[i], cr, ca) && !Revokes(trust, r.table, ids[i], cr, ca)
    ensures RevalidateEach(trust, r, p, ids, cr, ca) == Revalidation(r, 0, 0)
    decreases |ids|
  {
    if ids != [] { RevalidateEachIdle(trust, r, p, ids[..|ids| - 1], cr, ca); }
  }

  lemma SettledIsIdle(trust: Trust, r: Reg, ids: seq<ConnId>, cr: string, ca: string, out: Revalidation, i: nat)
    requires Settled(trust, r, ids, cr, ca, out) && i < |ids|
    ensures !Grants(trust, out.reg.table, ids[i], cr, ca) && !Revokes(trust, out.reg.table, ids[i], cr, ca)
  {
    if ids[i] in r.table { assert SettledAt(trust, r.table[ids[i]], out.reg.table[ids[i]], true, cr, ca); }
  }

  /** Repeating a re-validation grants nothing, revokes nothing and changes nothing. */
  lemma RevalidationIdempotent(trust: Trust, r: Reg, p: string, cr: string, ca: string)
    requires Consistent(r) && trust.parses(ca)
    ensures var once := RevalidateCR(trust, r, p, cr, ca).value.reg;
            RevalidateCR(trust, once, p, cr, ca) == Some(Revalidation(once, 0, 0))
  {
    if p in r.planes {
      RevalidationSettles(trust, r, p, cr, ca);
      var out := RevalidateCR(trust, r, p, cr, ca).value;
      forall i | 0 <= i < |r.planes[p]|
        ensures !Grants(trust, out.reg.table, r.planes[p][i], cr, ca) && !Revokes(trust, out.reg.table, r.planes[p][i], cr, ca)
      {
        SettledIsIdle(trust, r, r.planes[p], cr, ca, out, i);
      }
      RevalidateEachIdle(trust, out.reg, p, r.planes[p], cr, ca);
    }
  }
}
