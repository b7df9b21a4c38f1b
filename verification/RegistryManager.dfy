/** The connection manager as the gateway runs it, each method proved against the registry's specification. */
module RegistryManager {
  import opened Sequences
  import opened RegistryKeys
  import opened Registry
  import opened RegistryRuns

  class AgentConnection {
    const id: ConnId
    const plane: string
    const cert: string
    var validCRs: seq<string>

    constructor (id: ConnId, plane: string, cert: string, crs: seq<string>)
      ensures this.id == id && this.plane == plane && this.cert == cert && validCRs == crs
    {
      this.id, this.plane, this.cert, this.validCRs := id, plane, cert, crs;
    }

    ghost function Value(): Conn
      reads this
    {
      Conn(plane, cert, validCRs)
    }

    method IsValidForCR(cr: string) returns (valid: bool)
      ensures valid <==> cr in validCRs
    {
      valid := cr in validCRs;
    }

    method RemoveValidCRUnsafe(cr: string)
      modifies this
      ensures validCRs == Without(old(validCRs), cr)
    {
      var kept := [];
      var i := 0;
      while i < |validCRs|
        invariant 0 <= i <= |validCRs| && validCRs == old(validCRs)
        invariant kept + Without(validCRs[i..], cr) == Without(validCRs, cr)
      {
        if validCRs[i] != cr { kept := kept + [validCRs[i]]; }
        i := i + 1;
      }
      validCRs := kept;
    }

    method UpdateCRValidity(trust: Trust, cr: string, ca: string) returns (granted: bool, revoked: bool)
      modifies this
      ensures validCRs == UpdatedCRs(trust, old(Value()), cr, ca)
      ensures granted <==> cr !in old(validCRs) && cr in validCRs
      ensures revoked <==> cr in old(validCRs) && cr !in validCRs
      ensures granted <==> trust.verifies(cert, ca) && cr !in old(validCRs)
      ensures revoked <==> !trust.verifies(cert, ca) && cr in old(validCRs)
    {
      UpdatedCRsMeaning(trust, Value(), cr, ca);
      var wasValid := cr in validCRs;
      var isValid := trust.verifies(cert, ca);
      granted, revoked := false, false;
      if isValid && !wasValid {
        validCRs := validCRs + [cr];
        granted := true;
      } else if !isValid && wasValid {
        RemoveValidCRUnsafe(cr);
        revoked := true;
      }
    }
  }

  /** `conns` are the objects of `ids`, in order. */
  ghost predicate Listed(known: map<ConnId, AgentConnection>, conns: seq<AgentConnection>, ids: seq<ConnId>) {
    |conns| == |ids| && forall i :: 0 <= i < |ids| ==> ids[i] in known && known[ids[i]] == conns[i] && conns[i].id == ids[i]
  }

  lemma ListedAppend(known: map<ConnId, AgentConnection>, conns: seq<AgentConnection>, ids: seq<ConnId>, id: ConnId, conn: AgentConnection)
    requires id !in known && conn.id == id
    ensures Listed(known, conns, ids) ==>
              Listed(known[id := conn], conns, ids) && Listed(known[id := conn], conns + [conn], ids + [id])
  {
  }

  lemma ListedRemove(known: map<ConnId, AgentConnection>, conns: seq<AgentConnection>, ids: seq<ConnId>, at: nat)
    requires Listed(known, conns, ids) && at < |ids|
    ensures Listed(known, conns[..at] + conns[at + 1..], ids[..at] + ids[at + 1..])
  {
  }

  class ConnectionManager {
    var connections: map<string, seq<AgentConnection>>
    var roundRobin: map<string, nat>
    /** What the listener has been told. */
    var events: seq<Event>
    /** Every connection object ever registered. */
    ghost var known: map<ConnId, AgentConnection>
    /** The registry this manager stands for. */
    ghost var reg: Reg

    ghost predicate Valid()
      reads this, known.Values
    {
      && connections.Keys == reg.planes.Keys
      && (forall p :: p in connections ==> connections[p] != [] && Listed(known, connections[p], reg.planes[p]))
      && known.Keys == reg.table.Keys
      && (forall id :: id in known ==> known[id].id == id && known[id].Value() == reg.table[id])
      && roundRobin == reg.counters && events == reg.events
    }

    constructor ()
      ensures Valid() && reg == Empty && known == map[]
    {
      connections, roundRobin, events, known, reg := map[], map[], [], map[], Empty;
    }

    method Register(planeType: string, planeID: string, id: ConnId, crs: seq<string>, cert: string)
      requires Valid() && id !in known
      modifies this
      ensures Valid() && reg == Registry.Register(old(reg), planeType, planeID, id, crs, cert)
      ensures known.Keys == old(known.Keys) + {id} && fresh(known[id])
      ensures forall other :: other in old(known) ==> known[other] == old(known)[other]
    {
      var p := PlaneIdentifier(planeType, planeID);
      var conn := new AgentConnection(id, p, cert, crs);
      Admit(p, conn);
      Announce([Registered(p, id, crs)]);
    }

    method Admit(p: string, conn: AgentConnection)
      requires Valid() && conn.id !in known && conn.plane == p
      modifies this`connections, this`known, this`reg
      ensures Valid() && known == old(known)[conn.id := conn]
      ensures reg == old(reg).(planes := old(reg).planes[p := Members(old(reg), p) + [conn.id]],
                               table := old(reg).table[conn.id := conn.Value()])
    {
      ghost var before := known;
      var conns := if p in connections then connections[p] else [];
      forall q | q in reg.planes { ListedAppend(before, connections[q], reg.planes[q], conn.id, conn); }
      connections := connections[p := conns + [conn]];
      known := known[conn.id := conn];
      reg := reg.(planes := reg.planes[p := Members(reg, p) + [conn.id]], table := reg.table[conn.id := conn.Value()]);
    }

    method Get(p: string) returns (choice: Option<AgentConnection>)
      requires Valid()
      modifies this
      ensures Valid() && known == old(known) && reg == Registry.Get(old(reg), p).reg
      ensures match Registry.Get(old(reg), p).choice
              case None => choice == None
              case Some(id) => id in known && choice == Some(known[id])
    {
      if p !in connections { return None; }
      var conns := connections[p];
      var idx := Counter(roundRobin, p) % |conns|;
      roundRobin := roundRobin[p := (idx + 1) % |conns|];
      reg := Registry.Get(reg, p).reg;
      choice := Some(conns[idx]);
    }

    /** The connections of the list that are authorised for the CR, in order. */
    method AuthorisedOf(conns: seq<AgentConnection>, ghost ids: seq<ConnId>, cr: string) returns (valid: seq<AgentConnection>)
      requires Valid() && Listed(known, conns, ids)
      ensures Listed(known, valid, Holders(reg.table, ids, cr))
    {
      valid := [];
      var i := 0;
      while i < |conns|
        invariant 0 <= i <= |conns|
        invariant Listed(known, valid, Holders(reg.table, ids[..i], cr))
      {
        HoldersAppend(reg.table, ids[..i], [ids[i]], cr);
        assert ids[..i + 1] == ids[..i] + [ids[i]];
        assert known[ids[i]].Value() == reg.table[ids[i]];
        var isValid := conns[i].IsValidForCR(cr);
        if isValid { valid := valid + [conns[i]]; }
        i := i + 1;
      }
      assert ids[..i] == ids;
    }

    method GetForCR(p: string, cr: string) returns (choice: Option<AgentConnection>)
      requires Valid()
      modifies this
      ensures Valid() && known == old(known) && reg == Registry.GetForCR(old(reg), p, cr).reg
      ensures match Registry.GetForCR(old(reg), p, cr).choice
              case None => choice == None
              case Some(id) => id in known && choice == Some(known[id])
    {
      if p !in connections { return None; }
      var valid := AuthorisedOf(connections[p], reg.planes[p], cr);
      if |valid| == 0 { return None; }
      var key := CounterKey(p, cr);
      var idx := Counter(roundRobin, key) % |valid|;
      roundRobin := roundRobin[key := (idx + 1) % |valid|];
      reg := Registry.GetForCR(reg, p, cr).reg;
      choice := Some(valid[idx]);
    }

    /** Stops at the first connection of the list that is authorised for the CR. */
    method HasAuthorised(conns: seq<AgentConnection>, ghost ids: seq<ConnId>, cr: string) returns (found: bool)
      requires Valid() && Listed(known, conns, ids)
      ensures found <==> Holders(reg.table, ids, cr) != []
    {
      HoldersEmpty(reg.table, ids, cr);
      var i := 0;
      while i < |conns|
        invariant 0 <= i <= |conns|
        invariant forall j :: 0 <= j < i ==> !Holds(reg.table, ids[j], cr)
      {
        assert known[ids[i]].Value() == reg.table[ids[i]];
        found := conns[i].IsValidForCR(cr);
        if found { return; }
        i := i + 1;
      }
      found := false;
    }

    /** Keys are collected in whatever order the map yields them, then deleted. */
    method CleanupPerCRRoundRobinKeys(p: string)
      modifies this`roundRobin
      ensures roundRobin == map key | key in old(roundRobin) && !HasPrefix(key, p + "/") :: old(roundRobin)[key]
    {
      var keysToDelete := [];
      var todo := roundRobin.Keys;
      while todo != {}
        invariant todo <= roundRobin.Keys && roundRobin == old(roundRobin)
        invariant forall key :: key in keysToDelete <==> key in roundRobin && key !in todo && HasPrefix(key, p + "/")
        decreases |todo|
      {
        var key :| key in todo;
        todo := todo - {key};
        if HasPrefix(key, p + "/") { keysToDelete := keysToDelete + [key]; }
      }
      var i := 0;
      while i < |keysToDelete|
        invariant 0 <= i <= |keysToDelete|
        invariant roundRobin == map key | key in old(roundRobin) && key !in keysToDelete[..i] :: old(roundRobin)[key]
      {
        assert keysToDelete[..i + 1] == keysToDelete[..i] + [keysToDelete[i]];
        roundRobin := roundRobin - {keysToDelete[i]};
        i := i + 1;
      }
      assert keysToDelete[..i] == keysToDelete;
    }

    method CleanupOrphanedCRKeys(p: string, removed: seq<string>, conns: seq<AgentConnection>, ghost ids: seq<ConnId>)
      requires Valid() && Listed(known, conns, ids)
      modifies this`roundRobin, this`reg
      ensures reg == old(reg).(counters := DropOrphans(old(reg).counters, p, removed, old(reg).table, ids)) && Valid()
    {
      var i := 0;
      while i < |removed|
        invariant 0 <= i <= |removed| && Valid()
        invariant reg == old(reg).(counters := DropOrphans(old(reg).counters, p, removed[..i], old(reg).table, ids))
      {
        CleanupOrphan(p, removed[i], conns, ids);
        DropOrphansAppend(old(reg).counters, p, removed[..i], [removed[i]], reg.table, ids);
        assert removed[..i + 1] == removed[..i] + [removed[i]];
        i := i + 1;
      }
      assert removed[..i] == removed;
    }

    method CleanupOrphan(p: string, cr: string, conns: seq<AgentConnection>, ghost ids: seq<ConnId>)
      requires Valid() && Listed(known, conns, ids)
      modifies this`roundRobin, this`reg
      ensures reg == old(reg).(counters := DropOrphans(old(reg).counters, p, [cr], old(reg).table, ids)) && Valid()
    {
      DropOrphansOne(reg.counters, p, cr, reg.table, ids);
      var found := HasAuthorised(conns, ids, cr);
      if !found {
        roundRobin := roundRobin - {CounterKey(p, cr)};
        reg := reg.(counters := roundRobin);
      }
    }

    /** The position of the connection in the list, or the list's length. */
    method Position(conns: seq<AgentConnection>, ghost ids: seq<ConnId>, id: ConnId) returns (at: nat)
      requires Listed(known, conns, ids)
      ensures if id in ids then at == FirstIndex(ids, id) else at == |conns|
    {
      at := 0;
      while at < |conns| && conns[at].id != id
        invariant 0 <= at <= |conns|
        invariant forall j :: 0 <= j < at ==> ids[j] != id
      {
        at := at + 1;
      }
    }

    /** The plane goes, with its counter and every per-CR counter under its name. */
    method DropPlane(p: string)
      requires Valid()
      modifies this`connections, this`roundRobin, this`reg
      ensures Valid() && reg == old(reg).(planes := old(reg).planes - {p}, counters := DropPlaneKeys(old(reg).counters, p))
    {
      connections := connections - {p};
      roundRobin := roundRobin - {p};
      CleanupPerCRRoundRobinKeys(p);
      reg := reg.(planes := reg.planes - {p}, counters := DropPlaneKeys(reg.counters, p));
    }

    method TakeOut(p: string, at: nat, ghost id: ConnId) returns (left: seq<AgentConnection>)
      requires Valid() && p in connections && at < |connections[p]| && |connections[p]| > 1
      requires id in reg.planes[p] && at == FirstIndex(reg.planes[p], id)
      modifies this`connections, this`reg
      ensures Valid() && reg == old(reg).(planes := old(reg).planes[p := Removed(old(reg).planes[p], id)])
      ensures Listed(known, left, reg.planes[p])
    {
      var conns := connections[p];
      left := conns[..at] + conns[at + 1..];
      ListedRemove(known, conns, reg.planes[p], at);
      connections := connections[p := left];
      reg := reg.(planes := reg.planes[p := Removed(reg.planes[p], id)]);
    }

    method Unregister(p: string, id: ConnId)
      requires Valid()
      modifies this
      ensures Valid() && known == old(known) && reg == Registry.Unregister(old(reg), p, id)
    {
      if p !in connections { return; }
      var conns := connections[p];
      ghost var ids := reg.planes[p];
      var at := Position(conns, ids, id);
      if at == |conns| {
        assert id !in ids;
        return;
      }
      RemoveAt(p, at, id);
      Announce([Unregistered(p, id)]);
    }

    method RemoveAt(p: string, at: nat, ghost id: ConnId)
      requires Valid() && p in connections && at < |connections[p]|
      requires id in reg.planes[p] && at == FirstIndex(reg.planes[p], id)
      modifies this`connections, this`roundRobin, this`reg
      ensures Valid() && reg == TakenOut(old(reg), p, id)
    {
      var validCRs := connections[p][at].validCRs;
      assert known[id].Value() == reg.table[id];
      if |connections[p]| == 1 {
        DropPlane(p);
      } else {
        var left := TakeOut(p, at, id);
        CleanupOrphanedCRKeys(p, validCRs, left, reg.planes[p]);
      }
    }

    method Announce(news: seq<Event>)
      requires Valid()
      modifies this`events, this`reg
      ensures Valid() && reg == old(reg).(events := old(reg).events + news)
    {
      events := events + news;
      reg := reg.(events := events);
    }

    method DisconnectAllForPlane(planeType: string, planeID: string) returns (disconnected: nat)
      requires Valid()
      modifies this
      ensures Valid() && known == old(known) && reg == DisconnectAll(old(reg), planeType + "/" + planeID)
      ensures disconnected == |Members(old(reg), planeType + "/" + planeID)|
    {
      var p := PlaneIdentifier(planeType, planeID);
      if p !in connections { return 0; }
      disconnected := |connections[p]|;
      AnnounceAll(p, connections[p], reg.planes[p]);
      DropPlane(p);
    }

    method AnnounceAll(p: string, conns: seq<AgentConnection>, ghost ids: seq<ConnId>)
      requires Valid() && Listed(known, conns, ids)
      modifies this`events, this`reg
      ensures Valid() && reg == old(reg).(events := old(reg).events + UnregisteredAll(p, ids))
    {
      var i := 0;
      while i < |conns|
        invariant 0 <= i <= |conns|
        invariant events + UnregisteredAll(p, ids[i..]) == old(events) + UnregisteredAll(p, ids)
        invariant reg == old(reg).(events := events) && Valid()
      {
        Announce([Unregistered(p, conns[i].id)]);
        i := i + 1;
      }
    }

    /** One re-validation with nothing in between; None when the CA data does not parse. */
    method RevalidateCR(trust: Trust, planeType: string, planeID: string, crNamespace: string, crName: string, ca: string)
      returns (counts: Option<(nat, nat)>)
      requires Valid()
      modifies this, known.Values
      ensures Valid() && known == old(known)
      ensures match Registry.RevalidateCR(trust, old(reg), planeType + "/" + planeID, crNamespace + "/" + crName, ca)
              case None => counts == None && reg == old(reg)
              case Some(out) => counts == Some((out.updated, out.removed)) && reg == out.reg
    {
      var p := PlaneIdentifier(planeType, planeID);
      if p !in connections { return Some((0, 0)); }
      var cr := CRKey(crNamespace, crName);
      if !trust.parses(ca) { return None; }
      var updated, removed := RevalidateConnections(trust, p, connections[p], reg.planes[p], cr, ca);
      if removed > 0 { CleanupRevoked(p, cr); }
      counts := Some((updated, removed));
    }

    method CleanupRevoked(p: string, cr: string)
      requires Valid() && p in connections
      modifies this`roundRobin, this`reg
      ensures Valid()
      ensures reg == if Authorised(old(reg), p, cr) == [] && CounterKey(p, cr) in old(reg).counters
                     then old(reg).(counters := old(reg).counters - {CounterKey(p, cr)}) else old(reg)
    {
      var found := HasAuthorised(connections[p], reg.planes[p], cr);
      if !found && CounterKey(p, cr) in roundRobin {
        roundRobin := roundRobin - {CounterKey(p, cr)};
        reg := reg.(counters := roundRobin);
      }
    }

    method RevalidateConnections(trust: Trust, p: string, conns: seq<AgentConnection>, ghost ids: seq<ConnId>, cr: string, ca: string)
      returns (updated: nat, removed: nat)
      requires Valid() && Listed(known, conns, ids)
      modifies this`events, this`reg, known.Values
      ensures Valid() && Revalidation(reg, updated, removed) == RevalidateEach(trust, old(reg), p, ids, cr, ca)
      ensures reg.planes == old(reg).planes && unchanged(this`connections, this`known)
    {
      updated, removed := 0, 0;
      var i := 0;
      while i < |conns|
        invariant 0 <= i <= |conns| && Valid()
        invariant Revalidation(reg, updated, removed) == RevalidateEach(trust, old(reg), p, ids[..i], cr, ca)
        invariant reg.planes == old(reg).planes && unchanged(this`connections, this`known)
      {
        updated, removed := CountConnection(trust, p, conns[i], cr, ca, updated, removed);
        RevalidateEachSnoc(trust, old(reg), p, ids, i, cr, ca);
        i := i + 1;
      }
      assert ids[..i] == ids;
    }

    method CountConnection(trust: Trust, p: string, conn: AgentConnection, cr: string, ca: string, updatedBefore: nat, removedBefore: nat)
      returns (updated: nat, removed: nat)
      requires Valid() && conn.id in known && known[conn.id] == conn
      modifies this`events, this`reg, conn
      ensures Valid()
      ensures Revalidation(reg, updated, removed) ==
              RevalidateNext(trust, Revalidation(old(reg), updatedBefore, removedBefore), p, conn.id, cr, ca)
    {
      updated, removed := updatedBefore, removedBefore;
      var granted, revoked := RevalidateConnection(trust, p, conn, cr, ca);
      if granted {
        updated := updated + 1;
      } else if revoked {
        removed := removed + 1;
      }
    }

    method RevalidateConnection(trust: Trust, p: string, conn: AgentConnection, cr: string, ca: string) returns (granted: bool, revoked: bool)
      requires Valid() && conn.id in known && known[conn.id] == conn
      modifies this`events, this`reg, conn
      ensures Valid() && reg == RevalidateOne(trust, old(reg), p, conn.id, cr, ca)
      ensures granted <==> Grants(trust, old(reg).table, conn.id, cr, ca)
      ensures revoked <==> Revokes(trust, old(reg).table, conn.id, cr, ca)
    {
      assert conn.Value() == reg.table[conn.id];
      granted, revoked := conn.UpdateCRValidity(trust, cr, ca);
      if granted || revoked {
        events := events + [CRsChanged(p, conn.id, conn.validCRs)];
      }
      reg := RevalidateOne(trust, reg, p, conn.id, cr, ca);
    }
  }
}
