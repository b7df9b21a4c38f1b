/**
 The gateway's connection registry as values: planes and their connections in order, every
 connection object ever created, the round-robin counters and the listener's events.
 */
module Registry {
  import opened Sequences
  import opened RegistryKeys

  /** Connection identifiers are fresh UUIDs; only their identity matters. */
  type ConnId = nat

  /** What the gateway knows of certificates: whether CA data parses, and whether a client certificate verifies against it. */
  datatype Trust = Trust(parses: string -> bool, verifies: (string, string) -> bool)

  datatype Conn = Conn(plane: string, cert: string, crs: seq<string>)

  datatype Event =
    | Registered(plane: string, id: ConnId, crs: seq<string>)
    | Unregistered(plane: string, id: ConnId)
    | CRsChanged(plane: string, id: ConnId, crs: seq<string>)

  datatype Reg = Reg(planes: map<string, seq<ConnId>>, table: map<ConnId, Conn>, counters: map<string, nat>, events: seq<Event>)

  const Empty: Reg := Reg(map[], map[], map[], [])

  /** What every operation keeps: non-empty planes of distinct connections that know their plane. */
  ghost predicate Consistent(r: Reg) {
    && (forall p :: p in r.planes ==> IsPlane(p) && r.planes[p] != [] && Distinct(r.planes[p]))
    && (forall p, i :: p in r.planes && 0 <= i < |r.planes[p]| ==>
          r.planes[p][i] in r.table && r.table[r.planes[p][i]].plane == p)
    && (forall id, i :: id in r.table && 0 <= i < |r.table[id].crs| ==> r.table[id].crs[i] != "")
  }

  function Members(r: Reg, p: string): seq<ConnId> {
    if p in r.planes then r.planes[p] else []
  }

  predicate Holds(table: map<ConnId, Conn>, id: ConnId, cr: string) {
    id in table && cr in table[id].crs
  }

  /** The connections among `ids` that are authorised for `cr`, in order. */
  function Holders(table: map<ConnId, Conn>, ids: seq<ConnId>, cr: string): seq<ConnId> {
    if ids == [] then []
    else (if Holds(table, ids[0], cr) then [ids[0]] else []) + Holders(table, ids[1..], cr)
  }

  function Authorised(r: Reg, p: string, cr: string): seq<ConnId> {
    Holders(r.table, Members(r, p), cr)
  }

  function Counter(counters: map<string, nat>, key: string): nat {
    if key in counters then counters[key] else 0
  }

  // ----- operations ---------------------------------------------------------------------------------

  function Register(r: Reg, planeType: string, planeID: string, id: ConnId, crs: seq<string>, cert: string): Reg {
    var p := PlaneIdentifier(planeType, planeID);
    r.(planes := r.planes[p := Members(r, p) + [id]],
       table := r.table[id := Conn(p, cert, crs)],
       events := r.events + [Registered(p, id, crs)])
  }

  function DropPlaneKeys(counters: map<string, nat>, p: string): map<string, nat> {
    map key | key in counters && key != p && !HasPrefix(key, p + "/") :: counters[key]
  }

  predicate Orphaned(key: string, p: string, removed: seq<string>, table: map<ConnId, Conn>, left: seq<ConnId>) {
    exists cr :: cr in removed && key == CounterKey(p, cr) && Holders(table, left, cr) == []
  }

  function DropOrphans(counters: map<string, nat>, p: string, removed: seq<string>, table: map<ConnId, Conn>, left: seq<ConnId>): map<string, nat> {
    map key | key in counters && !Orphaned(key, p, removed, table, left) :: counters[key]
  }

  function Removed(ids: seq<ConnId>, id: ConnId): seq<ConnId>
    requires id in ids
  {
    var at := FirstIndex(ids, id);
    ids[..at] + ids[at + 1..]
  }

  /** The registry without the connection, and without the counters only it accounted for. */
  function TakenOut(r: Reg, p: string, id: ConnId): Reg
    requires id in Members(r, p)
  {
    var left := Removed(r.planes[p], id);
    var crs := if id in r.table then r.table[id].crs else [];
    if left == [] then r.(planes := r.planes - {p}, counters := DropPlaneKeys(r.counters, p))
    else r.(planes := r.planes[p := left], counters := DropOrphans(r.counters, p, crs, r.table, left))
  }

  function Unregister(r: Reg, p: string, id: ConnId): Reg {
    if id !in Members(r, p) then r
    else TakenOut(r, p, id).(events := r.events + [Unregistered(p, id)])
  }

  datatype Picked = Picked(reg: Reg, choice: Option<ConnId>)

  /** Round robin over `ids` with the counter kept under `key`. */
  function Rotate(r: Reg, key: string, ids: seq<ConnId>): Picked {
    if ids == [] then Picked(r, None)
    else
      var idx := Counter(r.counters, key) % |ids|;
      Picked(r.(counters := r.counters[key := (idx + 1) % |ids|]), Some(ids[idx]))
  }

  function Get(r: Reg, p: string): Picked {
    Rotate(r, p, Members(r, p))
  }

  function GetForCR(r: Reg, p: string, cr: string): Picked {
    Rotate(r, CounterKey(p, cr), Authorised(r, p, cr))
  }

  function UnregisteredAll(p: string, ids: seq<ConnId>): seq<Event> {
    if ids == [] then [] else [Unregistered(p, ids[0])] + UnregisteredAll(p, ids[1..])
  }

  function DisconnectAll(r: Reg, p: string): Reg {
    if p !in r.planes then r
    else r.(planes := r.planes - {p}, counters := DropPlaneKeys(r.counters, p),
            events := r.events + UnregisteredAll(p, r.planes[p]))
  }

  function Without(crs: seq<string>, cr: string): seq<string> {
    if crs == [] then []
    else (if crs[0] == cr then [] else [crs[0]]) + Without(crs[1..], cr)
  }

  /** A connection's authorisations once its certificate has been checked against the CR's CA. */
  function UpdatedCRs(trust: Trust, c: Conn, cr: string, ca: string): seq<string> {
    var valid := trust.verifies(c.cert, ca);
    if valid && cr !in c.crs then c.crs + [cr]
    else if !valid && cr in c.crs then Without(c.crs, cr)
    else c.crs
  }

  predicate Grants(trust: Trust, table: map<ConnId, Conn>, id: ConnId, cr: string, ca: string) {
    id in table && trust.verifies(table[id].cert, ca) && cr !in table[id].crs
  }

  predicate Revokes(trust: Trust, table: map<ConnId, Conn>, id: ConnId, cr: string, ca: string) {
    id in table && !trust.verifies(table[id].cert, ca) && cr in table[id].crs
  }

  function RevalidateOne(trust: Trust, r: Reg, p: string, id: ConnId, cr: string, ca: string): Reg {
    if Grants(trust, r.table, id, cr, ca) || Revokes(trust, r.table, id, cr, ca) then
      var crs := UpdatedCRs(trust, r.table[id], cr, ca);
      r.(table := r.table[id := r.table[id].(crs := crs)], events := r.events + [CRsChanged(p, id, crs)])
    else r
  }

  datatype Revalidation = Revalidation(reg: Reg, updated: nat, removed: nat)

  /** One more connection of a re-validation. */
  function RevalidateNext(trust: Trust, before: Revalidation, p: string, id: ConnId, cr: string, ca: string): Revalidation {
    Revalidation(RevalidateOne(trust, before.reg, p, id, cr, ca),
                 before.updated + (if Grants(trust, before.reg.table, id, cr, ca) then 1 else 0),
                 before.removed + (if Revokes(trust, before.reg.table, id, cr, ca) then 1 else 0))
  }

  function RevalidateEach(trust: Trust, r: Reg, p: string, ids: seq<ConnId>, cr: string, ca: string): Revalidation {
    if ids == [] then Revalidation(r, 0, 0)
    else RevalidateNext(trust, RevalidateEach(trust, r, p, ids[..|ids| - 1], cr, ca), p, ids[|ids| - 1], cr, ca)
  }

  /** Re-validation without anything in between; None when the CA data does not parse. */
  function RevalidateCR(trust: Trust, r: Reg, p: string, cr: string, ca: string): Option<Revalidation> {
    if p !in r.planes then Some(Revalidation(r, 0, 0))
    else if !trust.parses(ca) then None
    else
      var out := RevalidateEach(trust, r, p, r.planes[p], cr, ca);
      var key := CounterKey(p, cr);
      if out.removed > 0 && Authorised(out.reg, p, cr) == [] && key in out.reg.counters then
        Some(out.(reg := out.reg.(counters := out.reg.counters - {key})))
      else Some(out)
  }

  lemma RevalidateEachSnoc(trust: Trust, r: Reg, p: string, ids: seq<ConnId>, k: nat, cr: string, ca: string)
    requires k < |ids|
    ensures RevalidateEach(trust, r, p, ids[..k + 1], cr, ca) ==
            RevalidateNext(trust, RevalidateEach(trust, r, p, ids[..k], cr, ca), p, ids[k], cr, ca)
  {
    assert ids[..k + 1][..k] == ids[..k];
  }

  // ----- facts about holders ----------------------------------------------------------------------------

  lemma {:induction false} HoldersMeaning(table: map<ConnId, Conn>, ids: seq<ConnId>, cr: string)
    ensures forall id :: id in Holders(table, ids, cr) <==> id in ids && Holds(table, id, cr)
    ensures Distinct(ids) ==> Distinct(Holders(table, ids, cr))
    decreases |ids|
  {
    if ids != [] { HoldersMeaning(table, ids[1..], cr); }
  }

  lemma HoldersEmpty(table: map<ConnId, Conn>, ids: seq<ConnId>, cr: string)
    ensures Holders(table, ids, cr) == [] <==> forall i :: 0 <= i < |ids| ==> !Holds(table, ids[i], cr)
  {
  }

  lemma {:induction false} HoldersAgree(t: map<ConnId, Conn>, u: map<ConnId, Conn>, ids: seq<ConnId>, cr: string)
    requires forall i :: 0 <= i < |ids| ==> Holds(t, ids[i], cr) == Holds(u, ids[i], cr)
    ensures Holders(t, ids, cr) == Holders(u, ids, cr)
    decreases |ids|
  {
    if ids != [] {
      assert forall i :: 0 <= i < |ids[1..]| ==> ids[1..][i] == ids[i + 1];
      HoldersAgree(t, u, ids[1..], cr);
    }
  }

  lemma {:induction false} HoldersAppend(table: map<ConnId, Conn>, a: seq<ConnId>, b: seq<ConnId>, cr: string)
    ensures Holders(table, a + b, cr) == Holders(table, a, cr) + Holders(table, b, cr)
    decreases |a|
  {
    if a == [] {
      assert a + b == b;
    } else {
      assert (a + b)[1..] == a[1..] + b;
      HoldersAppend(table, a[1..], b, cr);
    }
  }

  /** Orphans may be dropped one list of CRs after the other. */
  lemma DropOrphansAppend(counters: map<string, nat>, p: string, a: seq<string>, b: seq<string>, table: map<ConnId, Conn>, left: seq<ConnId>)
    ensures DropOrphans(DropOrphans(counters, p, a, table, left), p, b, table, left) == DropOrphans(counters, p, a + b, table, left)
  {
  }

  lemma DropOrphansOne(counters: map<string, nat>, p: string, cr: string, table: map<ConnId, Conn>, left: seq<ConnId>)
    ensures DropOrphans(counters, p, [cr], table, left) == if Holders(table, left, cr) == [] then counters - {CounterKey(p, cr)} else counters
  {
  }

  lemma {:induction false} WithoutMeaning(crs: seq<string>, cr: string)
    ensures forall x :: x in Without(crs, cr) <==> x in crs && x != cr
    decreases |crs|
  {
    if crs != [] { WithoutMeaning(crs[1..], cr); }
  }

  /** Updating one connection for one CR settles that CR by the certificate and leaves the others alone. */
  lemma UpdatedCRsMeaning(trust: Trust, c: Conn, cr: string, ca: string)
    ensures cr in UpdatedCRs(trust, c, cr, ca) <==> trust.verifies(c.cert, ca)
    ensures forall other :: other != cr ==> (other in UpdatedCRs(trust, c, cr, ca) <==> other in c.crs)
  {
    WithoutMeaning(c.crs, cr);
  }

  lemma RemovedMeaning(ids: seq<ConnId>, id: ConnId)
    requires Distinct(ids) && id in ids
    ensures Distinct(Removed(ids, id))
    ensures forall x :: x in Removed(ids, id) <==> x in ids && x != id
  {
  }
}
