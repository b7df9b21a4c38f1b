/** Round-robin selection is fair, whatever else the registry does in between. */
module RegistryFairness {
  import opened Sequences
  import opened RegistryKeys
  import opened Registry
  import opened RegistryRuns
  import opened Rotation

  /** An authorised connection means a known plane and a CR key that is not empty. */
  lemma AuthorisedMeaning(r: Reg, p: string, cr: string)
    requires Consistent(r) && Authorised(r, p, cr) != []
    ensures p in r.planes && IsPlane(p) && cr != "" && Distinct(Authorised(r, p, cr))
  {
    var ids := Authorised(r, p, cr);
    HoldersMeaning(r.table, Members(r, p), cr);
    assert ids[0] in ids;
    assert Holds(r.table, ids[0], cr);
    var i :| 0 <= i < |r.table[ids[0]].crs| && r.table[ids[0]].crs[i] == cr;
  }

  lemma DropPlaneKeysKeeps(r: Reg, p: string, q: string, cr: string)
    requires Consistent(r) && p in r.planes && IsPlane(q) && p != q && cr != ""
    ensures Counter(DropPlaneKeys(r.counters, p), CounterKey(q, cr)) == Counter(r.counters, CounterKey(q, cr))
  {
    PrefixIsPlane(p, q, cr);
    CounterKeyNotPlane(q, cr);
  }

  lemma DropOrphansKeeps(r: Reg, p: string, removed: seq<string>, left: seq<ConnId>, q: string, cr: string)
    requires IsPlane(p) && IsPlane(q)
    requires p == q ==> Holders(r.table, left, cr) != []
    ensures Counter(DropOrphans(r.counters, p, removed, r.table, left), CounterKey(q, cr)) == Counter(r.counters, CounterKey(q, cr))
  {
    var key := CounterKey(q, cr);
    forall other | other in removed && key == CounterKey(p, other) ensures Holders(r.table, left, other) != [] {
      CounterKeyInjective(p, other, q, cr);
    }
    assert !Orphaned(key, p, removed, r.table, left);
  }

  /** Only GetForCR on the pair itself moves its counter while some connection stays authorised. */
  lemma CounterFrame(trust: Trust, r: Reg, op: Op, p: string, cr: string)
    requires Consistent(r) && Allowed(r, op) && op != OpGetForCR(p, cr)
    requires Authorised(r, p, cr) != [] && Authorised(Apply(trust, r, op), p, cr) != []
    ensures Counter(Apply(trust, r, op).counters, CounterKey(p, cr)) == Counter(r.counters, CounterKey(p, cr))
  {
    AuthorisedMeaning(r, p, cr);
    match op
    case OpRegister(planeType, planeID, id, crs, cert) =>
    case OpUnregister(q, id) =>
      if id in Members(r, q) {
        var left := Removed(r.planes[q], id);
        if left == [] {
          assert p != q;
          DropPlaneKeysKeeps(r, q, p, cr);
        } else {
          assert Members(Apply(trust, r, op), q) == left;
          DropOrphansKeeps(r, q, r.table[id].crs, left, p, cr);
        }
      }
    case OpGet(q) =>
      CounterKeyNotPlane(p, cr);
    case OpGetForCR(q, other) =>
      if Authorised(r, q, other) != [] {
        AuthorisedMeaning(r, q, other);
        CounterKeyInjective(q, other, p, cr);
      }
    case OpDisconnect(q) =>
      if q in r.planes {
        assert p != q;
        DropPlaneKeysKeeps(r, q, p, cr);
      }
    case OpRevalidate(q, ns, name, ca) =>
      if RevalidateCR(trust, r, q, CRKey(ns, name), ca).Some? {
        RevalidateFrame(trust, r, q, CRKey(ns, name), ca, p, cr);
      }
  }

  lemma RevalidateFrame(trust: Trust, r: Reg, q: string, other: string, ca: string, p: string, cr: string)
    requires Consistent(r) && other != "" && IsPlane(p)
    requires RevalidateCR(trust, r, q, other, ca).Some?
    requires Authorised(RevalidateCR(trust, r, q, other, ca).value.reg, p, cr) != []
    ensures Counter(RevalidateCR(trust, r, q, other, ca).value.reg.counters, CounterKey(p, cr)) == Counter(r.counters, CounterKey(p, cr))
  {
    if q in r.planes {
      RevalidateEachConsistent(trust, r, q, r.planes[q], other, ca);
      CounterKeyInjective(q, other, p, cr);
    }
  }

  /** Along the run, exactly the connections `ids` stay authorised for the pair. */
  ghost predicate Steady(trust: Trust, r: Reg, ops: seq<Op>, p: string, cr: string, ids: seq<ConnId>)
    decreases |ops|
  {
    && Authorised(r, p, cr) == ids
    && (ops != [] ==> Allowed(r, ops[0]) && Steady(trust, Apply(trust, r, ops[0]), ops[1..], p, cr, ids))
  }

  /** The connections the run's GetForCR calls for the pair pick, in order. */
  ghost function Picks(trust: Trust, r: Reg, ops: seq<Op>, p: string, cr: string): seq<ConnId>
    decreases |ops|
  {
    if ops == [] then []
    else
      (if ops[0] == OpGetForCR(p, cr) && GetForCR(r, p, cr).choice.Some? then [GetForCR(r, p, cr).choice.value] else [])
      + Picks(trust, Apply(trust, r, ops[0]), ops[1..], p, cr)
  }

  /** How many GetForCR calls for the pair the run makes. */
  function CallsFor(ops: seq<Op>, p: string, cr: string): nat {
    if ops == [] then 0 else (if ops[0] == OpGetForCR(p, cr) then 1 else 0) + CallsFor(ops[1..], p, cr)
  }

  lemma {:induction false} EveryCallPicks(trust: Trust, r: Reg, ops: seq<Op>, p: string, cr: string, ids: seq<ConnId>)
    requires Steady(trust, r, ops, p, cr, ids) && ids != []
    ensures |Picks(trust, r, ops, p, cr)| == CallsFor(ops, p, cr)
    decreases |ops|
  {
    if ops != [] { EveryCallPicks(trust, Apply(trust, r, ops[0]), ops[1..], p, cr, ids); }
  }

  /** `c` modulo `n`, by repeated subtraction. */
  ghost function Wrap(c: nat, n: nat): (w: nat)
    requires n > 0
    ensures w < n
  {
    if c < n then c else Wrap(c - n, n)
  }

  lemma {:induction false} WrapIsMod(c: nat, n: nat)
    requires n > 0
    ensures Wrap(c, n) == c % n
    decreases c
  {
    if c < n {
      DivModUnique(c, n, 0, c);
    } else {
      WrapIsMod(c - n, n);
      ModSum(c - n, n, n);
      DivModUnique(n, n, 1, 0);
    }
  }

  /** The element of `ids` that a counter `c` stands at. */
  ghost function At(ids: seq<ConnId>, c: nat): ConnId
    requires ids != []
  {
    ids[Wrap(c, |ids|)]
  }

  /** One rotation picks where the counter stands and moves it on. */
  lemma RotateTurns(r: Reg, key: string, ids: seq<ConnId>)
    requires ids != []
    ensures var c := Counter(r.counters, key);
            && Rotate(r, key, ids).choice == Some(At(ids, c))
            && Counter(Rotate(r, key, ids).reg.counters, key) == Wrap(c + 1, |ids|)
  {
    var n, c := |ids|, Counter(r.counters, key);
    WrapIsMod(c, n);
    WrapIsMod(c + 1, n);
    NextDivMod(c, n);
    NextDivMod(c % n, n);
    DivModUnique(c % n, n, 0, c % n);
  }

  /** `picks` goes round `ids` starting from a counter `c`. */
  ghost predicate GoesRound(picks: seq<ConnId>, ids: seq<ConnId>, c: nat)
    requires ids != []
    decreases |picks|
  {
    picks != [] ==> picks[0] == At(ids, c) && GoesRound(picks[1..], ids, Wrap(c + 1, |ids|))
  }

  lemma {:induction false} PicksGoRound(trust: Trust, r: Reg, ops: seq<Op>, p: string, cr: string, ids: seq<ConnId>)
    requires Consistent(r) && Steady(trust, r, ops, p, cr, ids) && ids != []
    ensures GoesRound(Picks(trust, r, ops, p, cr), ids, Counter(r.counters, CounterKey(p, cr)))
    decreases |ops|
  {
    if ops != [] {
      var next := Apply(trust, r, ops[0]);
      var all, rest := Picks(trust, r, ops, p, cr), Picks(trust, next, ops[1..], p, cr);
      ApplyConsistent(trust, r, ops[0]);
      PicksGoRound(trust, next, ops[1..], p, cr, ids);
      if ops[0] == OpGetForCR(p, cr) {
        RotateTurns(r, CounterKey(p, cr), ids);
        assert all[0] == At(ids, Counter(r.counters, CounterKey(p, cr))) && all[1..] == rest;
      } else {
        assert all == rest;
        CounterFrame(trust, r, ops[0], p, cr);
      }
    }
  }

  lemma {:induction false} RoundIndex(picks: seq<ConnId>, ids: seq<ConnId>, c: nat, j: nat)
    requires ids != [] && GoesRound(picks, ids, c) && j < |picks|
    ensures picks[j] == At(ids, c + j)
    decreases |picks|
  {
    if j > 0 {
      RoundIndex(picks[1..], ids, Wrap(c + 1, |ids|), j - 1);
      WrapTwice(c + 1, |ids|, j - 1);
    }
  }

  lemma {:induction false} WrapTwice(c: nat, n: nat, j: nat)
    requires n > 0
    ensures Wrap(Wrap(c, n) + j, n) == Wrap(c + j, n)
    decreases c
  {
    if c >= n { WrapTwice(c - n, n, j); }
  }

  lemma {:induction false} RotationCount(picks: seq<ConnId>, ids: seq<ConnId>, c: nat, i: nat)
    requires Distinct(ids) && i < |ids|
    requires forall j :: 0 <= j < |picks| ==> picks[j] == At(ids, c + j)
    ensures multiset(picks)[ids[i]] == Hits(i, c, |ids|, |picks|)
    decreases |picks|
  {
    if picks != [] {
      var k := |picks| - 1;
      assert picks == picks[..k] + [picks[k]];
      RotationCount(picks[..k], ids, c, i);
      assert picks[k] == At(ids, c + k);
      WrapIsMod(c + k, |ids|);
    }
  }

  /** Every element is picked as often as every other, give or take one. */
  ghost predicate Even(picks: seq<ConnId>, ids: seq<ConnId>)
    requires ids != []
  {
    var k, n := |picks|, |ids|;
    && (forall j :: 0 <= j < k ==> picks[j] in ids)
    && forall i :: 0 <= i < n ==>
         k / n <= multiset(picks)[ids[i]] <= k / n + 1 && (k % n == 0 ==> multiset(picks)[ids[i]] == k / n)
  }

  lemma RoundIsEven(picks: seq<ConnId>, ids: seq<ConnId>, c: nat)
    requires ids != [] && Distinct(ids) && GoesRound(picks, ids, c)
    ensures Even(picks, ids)
  {
    forall j | 0 <= j < |picks| ensures picks[j] == At(ids, c + j) { RoundIndex(picks, ids, c, j); }
    forall i | 0 <= i < |ids|
      ensures |picks| / |ids| <= multiset(picks)[ids[i]] <= |picks| / |ids| + 1
      ensures |picks| % |ids| == 0 ==> multiset(picks)[ids[i]] == |picks| / |ids|
    {
      RotationCount(picks, ids, c, i);
      HitsEven(i, c, |ids|, |picks|);
    }
  }

  /**
   Fairness: while exactly n connections stay authorised for a CR on a plane, any k GetForCR
   calls for it pick each of them k/n times rounded down or up, whatever operations on other
   CRs, planes or connections are interleaved.
   */
  lemma RoundRobinFair(trust: Trust, r: Reg, ops: seq<Op>, p: string, cr: string, ids: seq<ConnId>)
    requires Consistent(r) && Steady(trust, r, ops, p, cr, ids) && ids != []
    ensures |Picks(trust, r, ops, p, cr)| == CallsFor(ops, p, cr)
    ensures Even(Picks(trust, r, ops, p, cr), ids)
  {
    EveryCallPicks(trust, r, ops, p, cr, ids);
    PicksGoRound(trust, r, ops, p, cr, ids);
    AuthorisedMeaning(r, p, cr);
    RoundIsEven(Picks(trust, r, ops, p, cr), ids, Counter(r.counters, CounterKey(p, cr)));
  }
}
