/** The promises of the match engine, stated on queries and batches. */
module ResourceTreeTheorems {
  import opened Sequences
  import opened ResourceTree
  import opened ResourceTreeBudgets
  import opened ResourceTreeExact
  import opened ResourceTreeQueries

  // ----- truncation ------------------------------------------------------------------------------

  ghost predicate AtMost(l: Limits, m: Limits) {
    l.matches <= m.matches && l.bytes <= m.bytes && l.lists <= m.lists && l.pages <= m.pages
  }

  lemma ExecuteTighter(h: Handler, q: Query, plan: seq<Walk>, l: Limits, m: Limits)
    requires AtMost(l, m)
    ensures StopsHonestly(Execute(h, q, plan, l), Execute(h, q, plan, m))
  {
    RunFuel(ContextOf(h, q), Start(l), h.server, q.child, plan, Fuel(l.lists), Fuel(m.lists));
    RunTighter(ContextOf(h, q), Start(l), Start(m), PlanScript(h.server, q.child, plan, Fuel(m.lists)));
  }

  /**
   Lowering any limit can only cut a result short, and never silently: a result without error is
   the result of the higher limits, a failure is the same failure, and a truncated result lists
   the same objects at the same positions, each with a prefix of its parents.
   */
  lemma TruncationIsPrefixSound(h: Handler, q: Query, plan: seq<Walk>, l: Limits, m: Limits)
    requires AtMost(l, m)
    ensures var small, large := ResultOf(q.id, Execute(h, q, plan, l)), ResultOf(q.id, Execute(h, q, plan, m));
            && (!small.truncated ==> small == large)
            && (large.error == None || large.truncated ==>
                  && |small.matches| <= |large.matches|
                  && forall i :: 0 <= i < |small.matches| ==>
                       && small.matches[i].raw == large.matches[i].raw
                       && small.matches[i].parentUIDs <= large.matches[i].parentUIDs)
  {
    ExecuteTighter(h, q, plan, l, m);
  }

  // ----- bounded work ------------------------------------------------------------------------------

  /**
   Every query ends within its budgets, even against a server that hands out continue tokens for
   ever: it issues at most maxListCalls LIST calls, follows at most 128 continue tokens, keeps at
   most matchLimit matches.
   */
  lemma WorkIsBounded(h: Handler, q: Query, plan: seq<Walk>, remaining: int)
    ensures var s := Execute(h, q, plan, LimitsFor(h, remaining)).state;
            && |s.calls| <= Fuel(h.maxListCalls)
            && Continued(s.calls) <= MAX_CONTINUATION_PAGES_PER_QUERY
            && |s.entries| <= Fuel(h.matchLimit)
  {
    var l := LimitsFor(h, remaining);
    RunBounded(ContextOf(h, q), Start(l), PlanScript(h.server, q.child, plan, Fuel(l.lists)), l.lists, l.pages);
    if h.maxListCalls < 0 { NoListsNoCalls(ContextOf(h, q), Start(l), PlanScript(h.server, q.child, plan, Fuel(l.lists))); }
    RunKeepsLimit(ContextOf(h, q), Start(l), PlanScript(h.server, q.child, plan, Fuel(l.lists)));
  }

  lemma {:induction false} NoListsNoCalls(ctx: Context, s: State, script: seq<Action>)
    requires s.lists <= 0 && s.calls == []
    ensures Run(ctx, s, script).state.calls == []
    decreases |script|
  {
    if script != [] {
      var r := Step(ctx, s, script[0]);
      if r.outcome == Done { NoListsNoCalls(ctx, r.state, script[1..]); }
    }
  }

  lemma {:induction false} RunKeepsLimit(ctx: Context, s: State, script: seq<Action>)
    ensures Run(ctx, s, script).state.limit == s.limit
    decreases |script|
  {
    if script != [] {
      var r := Step(ctx, s, script[0]);
      if r.outcome == Done { RunKeepsLimit(ctx, r.state, script[1..]); }
    }
  }

  // ----- the batch ledger ----------------------------------------------------------------------------

  ghost function Spent(h: Handler, queries: seq<Query>, answers: seq<Answer>): nat
    requires |queries| == |answers|
  {
    if queries == [] then 0
    else
      var n := |queries| - 1;
      Spent(h, queries[..n], answers[..n]) + EntriesCost(ContextOf(h, queries[n]), answers[n].accumulated)
  }

  lemma ExecuteLedger(h: Handler, q: Query, plan: seq<Walk>, l: Limits)
    ensures var s := Execute(h, q, plan, l).state; s.remaining + EntriesCost(ContextOf(h, q), s.entries) == l.bytes
  {
    RunLedger(ContextOf(h, q), Start(l), PlanScript(h.server, q.child, plan, Fuel(l.lists)));
  }

  lemma QueryLedger(h: Handler, q: Query, duplicated: bool, expired: bool, remaining: int)
    ensures var a := RunQuery(h, q, duplicated, expired, remaining);
            && a.remaining + EntriesCost(ContextOf(h, q), a.accumulated) == remaining
            && (a.result.matches == [] || a.result.matches == Strip(a.accumulated))
  {
    ExecuteLedger(h, q, PlanOf(Validate(h, q), q), LimitsFor(h, remaining));
  }

  /**
   Across a whole batch, the bytes left plus the cost of every match accumulated so far equal the
   budget the batch started with, and no more than that budget is ever spent.
   */
  lemma {:induction false} BatchLedger(h: Handler, queries: seq<Query>, duplicates: set<string>, expired: nat -> bool, remaining: int)
    ensures var out := Answers(h, queries, duplicates, expired, remaining);
            && Left(out, remaining) + Spent(h, queries, out) == remaining
            && Left(out, remaining) >= Floor(remaining)
            && (remaining >= 0 ==> Spent(h, queries, out) <= remaining)
    decreases |queries|
  {
    if queries != [] {
      var n := |queries| - 1;
      var before := Answers(h, queries[..n], duplicates, expired, remaining);
      var out := Answers(h, queries, duplicates, expired, remaining);
      assert out[..n] == before;
      BatchLedger(h, queries[..n], duplicates, expired, remaining);
      QueryLedger(h, queries[n], queries[n].id in duplicates, expired(n), Left(before, remaining));
      QueryWithin(h, queries[n], queries[n].id in duplicates, expired(n), Left(before, remaining));
    }
  }

  // ----- the byte ceiling ------------------------------------------------------------------------------

  /** The bytes of a list of parent UIDs: each one escaped, with its separator. */
  function UidBytes(h: Handler, uids: seq<string>): nat {
    if uids == [] then 0 else UidBytes(h, uids[..|uids| - 1]) + h.escapedLength(uids[|uids| - 1]) + 1
  }

  /** What a match costs in the response: its object and its escaped parent UIDs. */
  function MatchCost(h: Handler, m: MatchedObject): nat {
    |m.raw| + UidBytes(h, m.parentUIDs)
  }

  function MatchesCost(h: Handler, matches: seq<MatchedObject>): nat {
    if matches == [] then 0 else MatchesCost(h, matches[..|matches| - 1]) + MatchCost(h, matches[|matches| - 1])
  }

  function ResultsCost(h: Handler, results: seq<MatchResult>): nat {
    if results == [] then 0 else ResultsCost(h, results[..|results| - 1]) + MatchesCost(h, results[|results| - 1].matches)
  }

  lemma {:induction false} UidsCostBytes(h: Handler, q: Query, uids: seq<string>)
    ensures UidsCost(ContextOf(h, q), uids) == UidBytes(h, uids)
    decreases |uids|
  {
    if uids != [] { UidsCostBytes(h, q, uids[..|uids| - 1]); }
  }

  lemma {:induction false} StripCost(h: Handler, q: Query, entries: seq<Entry>)
    ensures MatchesCost(h, Strip(entries)) == EntriesCost(ContextOf(h, q), entries)
    decreases |entries|
  {
    if entries != [] {
      var n := |entries| - 1;
      assert Strip(entries)[..n] == Strip(entries[..n]);
      StripCost(h, q, entries[..n]);
      UidsCostBytes(h, q, entries[n].parentUIDs);
    }
  }

  lemma ExecuteWithin(h: Handler, q: Query, plan: seq<Walk>, l: Limits)
    ensures Execute(h, q, plan, l).state.remaining >= Floor(l.bytes)
  {
    RunWithin(ContextOf(h, q), Start(l), PlanScript(h.server, q.child, plan, Fuel(l.lists)));
  }

  /** A query's matches cost no more than what it takes off the budget, and it takes no more than there is. */
  lemma QueryWithin(h: Handler, q: Query, duplicated: bool, expired: bool, remaining: int)
    ensures var a := RunQuery(h, q, duplicated, expired, remaining);
            a.remaining >= Floor(remaining) && MatchesCost(h, a.result.matches) <= remaining - a.remaining
  {
    ExecuteWithin(h, q, PlanOf(Validate(h, q), q), LimitsFor(h, remaining));
    QueryLedger(h, q, duplicated, expired, remaining);
    StripCost(h, q, RunQuery(h, q, duplicated, expired, remaining).accumulated);
  }

  lemma {:induction false} BatchWithin(h: Handler, queries: seq<Query>, duplicates: set<string>, expired: nat -> bool, remaining: int)
    ensures var out := Answers(h, queries, duplicates, expired, remaining);
            Left(out, remaining) >= Floor(remaining) && ResultsCost(h, Results(out)) <= remaining - Left(out, remaining)
    decreases |queries|
  {
    if queries != [] {
      var n := |queries| - 1;
      var before := Answers(h, queries[..n], duplicates, expired, remaining);
      var out := Answers(h, queries, duplicates, expired, remaining);
      assert Results(out)[..n] == Results(before);
      BatchWithin(h, queries[..n], duplicates, expired, remaining);
      QueryWithin(h, queries[n], queries[n].id in duplicates, expired(n), Left(before, remaining));
    }
  }

  lemma {:induction false} NoMatchesNoCost(h: Handler, results: seq<MatchResult>)
    requires forall i :: 0 <= i < |results| ==> results[i].matches == []
    ensures ResultsCost(h, results) == 0
    decreases |results|
  {
    if results != [] { NoMatchesNoCost(h, results[..|results| - 1]); }
  }

  /**
   The byte ceiling: whatever is asked and however the API server answers, the matches of all
   results of a response together cost no more than maxResponseBytes, and nothing under a ceiling
   below zero.
   */
  lemma ResponseWithinBudget(h: Handler, version: string, queries: seq<Query>, expired: nat -> bool,
                             encodedSize: seq<MatchResult> -> Option<nat>)
    requires Respond(h, version, queries, expired, encodedSize).Matches?
    ensures ResultsCost(h, Respond(h, version, queries, expired, encodedSize).results) <= h.maxResponseBytes - Floor(h.maxResponseBytes)
  {
    NoMatchesNoCost(h, Unsupported(queries));
    BatchWithin(h, queries, Duplicates(Ids(queries)), expired, h.maxResponseBytes);
  }

  // ----- siblings ------------------------------------------------------------------------------------

  ghost function Alone(h: Handler, q: Query): Answer {
    RunQuery(h, q, false, false, h.maxResponseBytes)
  }

  ghost function Charge(h: Handler, q: Query): int {
    h.maxResponseBytes - Alone(h, q).remaining
  }

  ghost function Charges(h: Handler, queries: seq<Query>): int {
    if queries == [] then 0 else Charges(h, queries[..|queries| - 1]) + Charge(h, queries[|queries| - 1])
  }

  lemma ExecutePoorer(h: Handler, q: Query, plan: seq<Walk>, remaining: int)
    requires remaining <= h.maxResponseBytes
    requires h.maxResponseBytes - Execute(h, q, plan, LimitsFor(h, h.maxResponseBytes)).state.remaining <= remaining
    ensures var rich := Execute(h, q, plan, LimitsFor(h, h.maxResponseBytes));
            Execute(h, q, plan, LimitsFor(h, remaining)) == Ran(Poorer(rich.state, h.maxResponseBytes - remaining), rich.outcome)
  {
    var l := LimitsFor(h, h.maxResponseBytes);
    RunPoorer(ContextOf(h, q), Start(l), h.maxResponseBytes - remaining, PlanScript(h.server, q.child, plan, Fuel(l.lists)));
  }

  /** A query answers the same with fewer bytes as long as they cover what it charges alone. */
  lemma QueryUndisturbed(h: Handler, q: Query, remaining: int)
    requires Charge(h, q) <= remaining <= h.maxResponseBytes
    ensures RunQuery(h, q, false, false, remaining).result == Alone(h, q).result
    ensures RunQuery(h, q, false, false, remaining).remaining == remaining - Charge(h, q)
  {
    var plan := PlanOf(Validate(h, q), q);
    if Alone(h, q).remaining == Execute(h, q, plan, LimitsFor(h, h.maxResponseBytes)).state.remaining {
      ExecutePoorer(h, q, plan, remaining);
    }
  }

  lemma ChargeNonNegative(h: Handler, q: Query)
    ensures Charge(h, q) >= 0
  {
    QueryLedger(h, q, false, false, h.maxResponseBytes);
  }

  /** Every answer is what its query answers alone. */
  ghost predicate Undisturbed(h: Handler, queries: seq<Query>, answers: seq<Answer>) {
    |answers| == |queries| && forall i :: 0 <= i < |queries| ==> answers[i].result == Alone(h, queries[i]).result
  }

  lemma UndisturbedSnoc(h: Handler, queries: seq<Query>, before: seq<Answer>, out: seq<Answer>)
    requires queries != [] && |out| == |queries| && out[..|out| - 1] == before
    requires Undisturbed(h, queries[..|queries| - 1], before)
    requires out[|out| - 1].result == Alone(h, queries[|queries| - 1]).result
    ensures Undisturbed(h, queries, out)
  {
    forall i | 0 <= i < |queries| - 1 ensures out[i].result == Alone(h, queries[i]).result {
      assert out[i] == before[i] && queries[i] == queries[..|queries| - 1][i];
    }
  }

  /**
   Batch non-interference: with unique, non-empty ids, no deadline passed, and the bytes the
   queries charge when run alone fitting the budget together, every query of the batch answers
   exactly what it answers alone with a fresh budget.
   */
  lemma {:induction false} BatchNonInterference(h: Handler, queries: seq<Query>, duplicates: set<string>, expired: nat -> bool)
    requires forall i :: 0 <= i < |queries| ==> queries[i].id !in duplicates && !expired(i)
    requires Charges(h, queries) <= h.maxResponseBytes
    ensures Left(Answers(h, queries, duplicates, expired, h.maxResponseBytes), h.maxResponseBytes) == h.maxResponseBytes - Charges(h, queries)
    ensures Undisturbed(h, queries, Answers(h, queries, duplicates, expired, h.maxResponseBytes))
    decreases |queries|
  {
    if queries != [] {
      var n := |queries| - 1;
      ChargeNonNegative(h, queries[n]);
      ChargesNonNegative(h, queries[..n]);
      BatchNonInterference(h, queries[..n], duplicates, expired);
      BatchStep(h, queries, duplicates, expired);
      UndisturbedSnoc(h, queries, Answers(h, queries[..n], duplicates, expired, h.maxResponseBytes),
                      Answers(h, queries, duplicates, expired, h.maxResponseBytes));
    }
  }

  lemma BatchStep(h: Handler, queries: seq<Query>, duplicates: set<string>, expired: nat -> bool)
    requires queries != []
    requires queries[|queries| - 1].id !in duplicates && !expired(|queries| - 1)
    requires var n := |queries| - 1;
             var left := Left(Answers(h, queries[..n], duplicates, expired, h.maxResponseBytes), h.maxResponseBytes);
             Charge(h, queries[n]) <= left <= h.maxResponseBytes
    ensures var n := |queries| - 1;
            var before := Answers(h, queries[..n], duplicates, expired, h.maxResponseBytes);
            var out := Answers(h, queries, duplicates, expired, h.maxResponseBytes);
            && out[..n] == before
            && out[n].result == Alone(h, queries[n]).result
            && Left(out, h.maxResponseBytes) == Left(before, h.maxResponseBytes) - Charge(h, queries[n])
  {
    var n := |queries| - 1;
    var before := Answers(h, queries[..n], duplicates, expired, h.maxResponseBytes);
    QueryUndisturbed(h, queries[n], Left(before, h.maxResponseBytes));
  }

  lemma {:induction false} ChargesNonNegative(h: Handler, queries: seq<Query>)
    ensures Charges(h, queries) >= 0
    decreases |queries|
  {
    if queries != [] {
      ChargesNonNegative(h, queries[..|queries| - 1]);
      ChargeNonNegative(h, queries[|queries| - 1]);
    }
  }

  /** The same of a whole request: unique ids, no deadline, charges that fit together. */
  lemma RequestNonInterference(h: Handler, queries: seq<Query>, expired: nat -> bool, encodedSize: seq<MatchResult> -> Option<nat>)
    requires Distinct(Ids(queries)) && (forall i :: 0 <= i < |queries| ==> !expired(i))
    requires Charges(h, queries) <= h.maxResponseBytes
    requires Respond(h, PROTOCOL_VERSION, queries, expired, encodedSize).Matches?
    ensures var results := Respond(h, PROTOCOL_VERSION, queries, expired, encodedSize).results;
            |results| == |queries| && forall i :: 0 <= i < |queries| ==> results[i] == Alone(h, queries[i]).result
  {
    assert Duplicates(Ids(queries)) == {};
    BatchNonInterference(h, queries, {}, expired);
  }

  // ----- ownerRef exactness -----------------------------------------------------------------------------

  /** The parents of `item`: those of its own namespace whose UID it names as owner. */
  ghost predicate Owns(p: ParentRef, item: Item) {
    p.namespace == item.namespace && p.uid in item.owners
  }

  lemma {:induction false} UidsInMeaning(parents: seq<ParentRef>, ns: string, uid: string)
    ensures uid in UidsIn(parents, ns) <==> exists p :: p in parents && p.namespace == ns && p.uid == uid
    decreases |parents|
  {
    if parents != [] {
      UidsInMeaning(parents[1..], ns, uid);
    }
  }

  lemma {:induction false} OwnerAttribution(parents: seq<ParentRef>, namespaces: seq<string>, selects: (string, Item) -> bool, item: Item)
    requires Distinct(namespaces) && selects("", item)
    ensures Attributed(OwnerWalks(parents, namespaces), selects, item) ==
            if item.namespace in namespaces then Keep(Dedup(UidsIn(parents, item.namespace)), item.owners) else []
    decreases |namespaces|
  {
    if namespaces != [] {
      assert OwnerWalks(parents, namespaces)[1..] == OwnerWalks(parents, namespaces[1..]);
      OwnerAttribution(parents, namespaces[1..], selects, item);
    }
  }

  /** The UIDs ownerRef must report for one object. */
  ghost function OwnersAmong(parents: seq<ParentRef>, item: Item): seq<string> {
    Keep(Dedup(UidsIn(parents, item.namespace)), item.owners)
  }

  lemma OwnersAmongMeaning(parents: seq<ParentRef>, item: Item)
    ensures Distinct(OwnersAmong(parents, item))
    ensures forall uid :: uid in OwnersAmong(parents, item) <==> exists p :: p in parents && Owns(p, item) && p.uid == uid
    ensures forall i, j :: 0 <= i < j < |OwnersAmong(parents, item)| ==>
              FirstIndex(UidsIn(parents, item.namespace), OwnersAmong(parents, item)[i])
              < FirstIndex(UidsIn(parents, item.namespace), OwnersAmong(parents, item)[j])
  {
    var all := UidsIn(parents, item.namespace);
    var uids, out := Dedup(all), OwnersAmong(parents, item);
    AppendAllMeaning([], all);
    KeepMeaning(uids, item.owners);
    forall uid ensures uid in out <==> exists p :: p in parents && Owns(p, item) && p.uid == uid {
      UidsInMeaning(parents, item.namespace, uid);
    }
    forall i, j | 0 <= i < j < |out| ensures FirstIndex(all, out[i]) < FirstIndex(all, out[j]) {
      KeepOrder(uids, item.owners, i, j);
      assert out[i] in uids && out[j] in uids;
      DedupOrder(all, FirstIndex(uids, out[i]), FirstIndex(uids, out[j]));
    }
  }

  /** `items` are the objects behind the matches of a result, position by position. */
  ghost predicate Behind(ctx: Context, items: seq<Item>, matches: seq<MatchedObject>) {
    && |items| == |matches|
    && Distinct(items)
    && forall i :: 0 <= i < |items| ==> ctx.render(items[i]) == Some(matches[i].raw)
  }

  lemma ItemsBehind(ctx: Context, entries: seq<Entry>, plan: seq<Walk>, cluster: set<Item>, selects: (string, Item) -> bool)
    returns (items: seq<Item>)
    requires Exact(ctx, entries, plan, cluster, selects)
    requires forall a, b :: a in cluster && b in cluster && ChildKey(a) == ChildKey(b) ==> a == b
    ensures Behind(ctx, items, Strip(entries))
    ensures forall item :: item in items <==> item in cluster && Attributed(plan, selects, item) != []
    ensures forall i :: 0 <= i < |items| ==> entries[i].parentUIDs == Dedup(Attributed(plan, selects, items[i]))
  {
    items := seq(|entries|, i requires 0 <= i < |entries| => ItemOf(ctx, entries[i], plan, cluster, selects));
    forall i, j | 0 <= i < j < |items| ensures items[i] != items[j] {
      assert Keys(entries)[i] != Keys(entries)[j];
    }
    forall item ensures item in items <==> item in cluster && Attributed(plan, selects, item) != [] {
      WhichItems(ctx, entries, plan, cluster, selects, items, item);
    }
  }

  ghost function ItemOf(ctx: Context, e: Entry, plan: seq<Walk>, cluster: set<Item>, selects: (string, Item) -> bool): (item: Item)
    requires IsDescribed(ctx, e, plan, cluster, selects)
    ensures item in cluster && Describes(ctx, e, item, plan, selects)
  {
    var item :| item in cluster && Describes(ctx, e, item, plan, selects);
    item
  }

  lemma WhichItems(ctx: Context, entries: seq<Entry>, plan: seq<Walk>, cluster: set<Item>, selects: (string, Item) -> bool,
                   items: seq<Item>, item: Item)
    requires Exact(ctx, entries, plan, cluster, selects)
    requires forall a, b :: a in cluster && b in cluster && ChildKey(a) == ChildKey(b) ==> a == b
    requires |items| == |entries|
    requires forall i :: 0 <= i < |items| ==> items[i] in cluster && ChildKey(items[i]) == entries[i].key
    ensures item in items <==> item in cluster && Attributed(plan, selects, item) != []
  {
  }

  lemma OwnerPlanNamespaced(parents: seq<ParentRef>)
    requires AllNamespaced(parents)
    ensures forall w :: w in OwnerPlan(parents) ==> w.namespace != ""
  {
    AppendAllMembers([], Namespaces(parents));
    forall w | w in OwnerPlan(parents) ensures w.namespace != "" {
      var i :| 0 <= i < |OwnerPlan(parents)| && OwnerPlan(parents)[i] == w;
      assert w.namespace in Namespaces(parents);
    }
  }

  /**
   ownerRef exactness: a result without error lists exactly the objects owned by a parent of
   their own namespace, each once, with exactly those parents, without repeats, in request order.
   */
  lemma OwnerRefExact(h: Handler, q: Query, l: Limits, cluster: set<Item>, selects: (string, Item) -> bool) returns (items: seq<Item>)
    requires Validate(h, q) == OwnerRefQuery
    requires Faithful(h.server, q.child, cluster, selects)
    requires ResultOf(q.id, Execute(h, q, OwnerPlan(q.parents), l)).error == None
    ensures var matches := ResultOf(q.id, Execute(h, q, OwnerPlan(q.parents), l)).matches;
            && Behind(ContextOf(h, q), items, matches)
            && (forall item :: item in items <==> item in cluster && exists p :: p in q.parents && Owns(p, item))
            && forall i :: 0 <= i < |items| ==> matches[i].parentUIDs == OwnersAmong(q.parents, items[i])
  {
    var plan := OwnerPlan(q.parents);
    var ctx := ContextOf(h, q);
    var r := Execute(h, q, plan, l);
    OwnerPlanNamespaced(q.parents);
    RunExact(ctx, Start(l), h.server, q.child, plan, Fuel(l.lists), cluster, selects);
    items := ItemsBehind(ctx, r.state.entries, plan, cluster, selects);
    forall item | item in cluster
      ensures Attributed(plan, selects, item) == OwnersAmong(q.parents, item)
      ensures Dedup(OwnersAmong(q.parents, item)) == OwnersAmong(q.parents, item)
      ensures OwnersAmong(q.parents, item) != [] <==> exists p :: p in q.parents && Owns(p, item)
    {
      OwnerAttributionOf(q.parents, selects, item);
    }
  }

  lemma OwnersDedup(parents: seq<ParentRef>, item: Item)
    ensures Dedup(OwnersAmong(parents, item)) == OwnersAmong(parents, item)
  {
    OwnersAmongMeaning(parents, item);
    assert [] + OwnersAmong(parents, item) == OwnersAmong(parents, item);
    AppendAllDistinct([], OwnersAmong(parents, item));
  }

  lemma OwnersAttributed(parents: seq<ParentRef>, selects: (string, Item) -> bool, item: Item)
    requires selects("", item)
    ensures Attributed(OwnerPlan(parents), selects, item) == OwnersAmong(parents, item)
  {
    AppendAllMeaning([], Namespaces(parents));
    OwnerAttribution(parents, Dedup(Namespaces(parents)), selects, item);
    HasOwners(parents, item);
  }

  lemma OwnerAttributionOf(parents: seq<ParentRef>, selects: (string, Item) -> bool, item: Item)
    requires selects("", item)
    ensures Attributed(OwnerPlan(parents), selects, item) == OwnersAmong(parents, item)
    ensures Dedup(OwnersAmong(parents, item)) == OwnersAmong(parents, item)
    ensures OwnersAmong(parents, item) != [] <==> exists p :: p in parents && Owns(p, item)
  {
    OwnersAttributed(parents, selects, item);
    OwnersDedup(parents, item);
    HasOwners(parents, item);
  }

  lemma HasOwners(parents: seq<ParentRef>, item: Item)
    ensures OwnersAmong(parents, item) != [] <==> exists p :: p in parents && Owns(p, item)
    ensures OwnersAmong(parents, item) != [] ==> item.namespace in Namespaces(parents)
  {
    var out := OwnersAmong(parents, item);
    OwnersAmongMeaning(parents, item);
    if out != [] {
      assert out[0] in out;
      var p :| p in parents && Owns(p, item) && p.uid == out[0];
      var i :| 0 <= i < |parents| && parents[i] == p;
      assert Namespaces(parents)[i] == item.namespace;
    }
    if p :| p in parents && Owns(p, item) { assert p.uid in out; }
  }

  // ----- labelSelector exactness ---------------------------------------------------------------------------

  /** `p` is not skipped, and its selector selects `item` in a namespace searched for it. */
  ghost predicate Selects(c: Criteria, p: ParentRef, item: Item, selects: (string, Item) -> bool) {
    !Skipped(c, p) && item.namespace in Searched(c, p) && selects(c.selectorFor(p).value, item)
  }

  /** UIDs of the parents that select `item`, in request order, repeats included. */
  ghost function Selecting(c: Criteria, parents: seq<ParentRef>, item: Item, selects: (string, Item) -> bool): seq<string> {
    if parents == [] then []
    else (if Selects(c, parents[0], item, selects) then [parents[0].uid] else []) + Selecting(c, parents[1..], item, selects)
  }

  lemma {:induction false} SelectingMeaning(c: Criteria, parents: seq<ParentRef>, item: Item, selects: (string, Item) -> bool, uid: string)
    ensures uid in Selecting(c, parents, item, selects) <==> exists p :: p in parents && Selects(c, p, item, selects) && p.uid == uid
    decreases |parents|
  {
    if parents != [] { SelectingMeaning(c, parents[1..], item, selects, uid); }
  }

  /** `parents[k]` is the first that selects `item` under this UID. */
  ghost predicate FirstToSelect(c: Criteria, parents: seq<ParentRef>, item: Item, selects: (string, Item) -> bool, uid: string, k: nat) {
    && k < |parents| && Selects(c, parents[k], item, selects) && parents[k].uid == uid
    && forall j :: 0 <= j < k ==> !(Selects(c, parents[j], item, selects) && parents[j].uid == uid)
  }

  lemma {:induction false} FirstToSelectIndex(c: Criteria, parents: seq<ParentRef>, item: Item, selects: (string, Item) -> bool, uid: string, k: nat)
    requires FirstToSelect(c, parents, item, selects, uid, k)
    ensures FirstIndex(Selecting(c, parents, item, selects), uid) == |Selecting(c, parents[..k], item, selects)|
    decreases k
  {
    var rest := Selecting(c, parents[1..], item, selects);
    if k == 0 {
      assert Selecting(c, parents, item, selects) == [uid] + rest;
    } else {
      assert parents[..k][1..] == parents[1..][..k - 1];
      assert forall j :: 0 <= j < k - 1 ==> parents[1..][j] == parents[j + 1];
      FirstToSelectIndex(c, parents[1..], item, selects, uid, k - 1);
      if Selects(c, parents[0], item, selects) {
        FirstIndexSplit([parents[0].uid], rest, uid);
      } else {
        assert [] + rest == rest;
      }
    }
  }

  lemma {:induction false} SelectingGrows(c: Criteria, parents: seq<ParentRef>, item: Item, selects: (string, Item) -> bool, a: nat, b: nat)
    requires a <= b <= |parents|
    ensures |Selecting(c, parents[..a], item, selects)| <= |Selecting(c, parents[..b], item, selects)|
    decreases a
  {
    if a > 0 {
      assert parents[..a][1..] == parents[1..][..a - 1] && parents[..b][1..] == parents[1..][..b - 1];
      SelectingGrows(c, parents[1..], item, selects, a - 1, b - 1);
    }
  }

  /** The UIDs labelSelector must report for one object: the selecting parents', without repeats, in request order. */
  ghost function SelectorsAmong(c: Criteria, parents: seq<ParentRef>, item: Item, selects: (string, Item) -> bool): seq<string> {
    Dedup(Selecting(c, parents, item, selects))
  }

  lemma SelectorsAmongMeaning(c: Criteria, parents: seq<ParentRef>, item: Item, selects: (string, Item) -> bool)
    ensures var out := SelectorsAmong(c, parents, item, selects);
            && Distinct(out)
            && (forall uid :: uid in out <==> exists p :: p in parents && Selects(c, p, item, selects) && p.uid == uid)
            && forall i, j, a: nat, b: nat ::
                 (0 <= i < j < |out| && FirstToSelect(c, parents, item, selects, out[i], a) && FirstToSelect(c, parents, item, selects, out[j], b))
                 ==> a < b
  {
    var all, out := Selecting(c, parents, item, selects), SelectorsAmong(c, parents, item, selects);
    AppendAllMeaning([], all);
    forall uid ensures uid in out <==> exists p :: p in parents && Selects(c, p, item, selects) && p.uid == uid {
      SelectingMeaning(c, parents, item, selects, uid);
    }
    forall i, j, a: nat, b: nat | 0 <= i < j < |out|
        && FirstToSelect(c, parents, item, selects, out[i], a) && FirstToSelect(c, parents, item, selects, out[j], b)
      ensures a < b
    {
      DedupOrder(all, i, j);
      FirstToSelectIndex(c, parents, item, selects, out[i], a);
      FirstToSelectIndex(c, parents, item, selects, out[j], b);
      if b <= a { SelectingGrows(c, parents, item, selects, b, a); }
    }
  }

  lemma {:induction false} AttributedAppend(a: seq<Walk>, b: seq<Walk>, selects: (string, Item) -> bool, item: Item)
    ensures Attributed(a + b, selects, item) == Attributed(a, selects, item) + Attributed(b, selects, item)
    decreases |a|
  {
    if a == [] {
      assert a + b == b;
    } else {
      assert (a + b)[1..] == a[1..] + b;
      AttributedAppend(a[1..], b, selects, item);
    }
  }

  lemma {:induction false} ParentAttribution(c: Criteria, p: ParentRef, namespaces: seq<string>, selects: (string, Item) -> bool, item: Item, have: seq<string>)
    requires !Skipped(c, p)
    ensures AppendAll(have, Attributed(LabelWalks(c, p, namespaces), selects, item)) ==
            if item.namespace in namespaces && selects(c.selectorFor(p).value, item) then Append(have, p.uid) else have
    decreases |namespaces|
  {
    if namespaces != [] {
      var walks := LabelWalks(c, p, namespaces);
      assert walks[1..] == LabelWalks(c, p, namespaces[1..]);
      var rest := Attributed(walks[1..], selects, item);
      if namespaces[0] == item.namespace && selects(c.selectorFor(p).value, item) {
        AppendAllSplit(have, [p.uid], rest);
        assert AppendAll(have, [p.uid]) == AppendAll(Append(have, p.uid), []);
        ParentAttribution(c, p, namespaces[1..], selects, item, Append(have, p.uid));
      } else {
        assert [] + rest == rest;
        ParentAttribution(c, p, namespaces[1..], selects, item, have);
      }
    }
  }

  lemma {:induction false} LabelAttribution(c: Criteria, parents: seq<ParentRef>, selects: (string, Item) -> bool, item: Item, have: seq<string>)
    ensures AppendAll(have, Attributed(LabelPlan(c, parents), selects, item)) == AppendAll(have, Selecting(c, parents, item, selects))
    decreases |parents|
  {
    if parents != [] {
      var p := parents[0];
      var walks := if Skipped(c, p) then [] else LabelWalks(c, p, Searched(c, p));
      var one := if Selects(c, p, item, selects) then [p.uid] else [];
      AttributedAppend(walks, LabelPlan(c, parents[1..]), selects, item);
      AppendAllSplit(have, Attributed(walks, selects, item), Attributed(LabelPlan(c, parents[1..]), selects, item));
      AppendAllSplit(have, one, Selecting(c, parents[1..], item, selects));
      assert AppendAll(have, [p.uid]) == AppendAll(Append(have, p.uid), []);
      if !Skipped(c, p) { ParentAttribution(c, p, Searched(c, p), selects, item, have); }
      LabelAttribution(c, parents[1..], selects, item, AppendAll(have, one));
    }
  }

  lemma {:induction false} LabelPlanNamespaced(c: Criteria, parents: seq<ParentRef>)
    requires forall ns :: ns in c.namespaces ==> ns != ""
    ensures forall w :: w in LabelPlan(c, parents) ==> w.namespace != ""
    decreases |parents|
  {
    if parents != [] {
      var p := parents[0];
      LabelPlanNamespaced(c, parents[1..]);
      if !Skipped(c, p) {
        var walks := LabelWalks(c, p, Searched(c, p));
        forall i | 0 <= i < |walks| ensures walks[i].namespace != "" {
          assert Searched(c, p)[i] in Searched(c, p);
        }
      }
    }
  }

  lemma LabelQueryNamespaced(h: Handler, q: Query, c: Criteria)
    requires Validate(h, q) == LabelQuery(c)
    ensures forall w :: w in LabelPlan(c, q.parents) ==> w.namespace != ""
  {
    AppendAllMembers([], q.block.criteria.namespaces);
    LabelPlanNamespaced(c, q.parents);
  }

  /**
   labelSelector fan-in exactness: a result without error lists exactly the objects some parent
   selects, each once, and attributes each to exactly the parents that select it, in request order.
   */
  lemma LabelSelectorExact(h: Handler, q: Query, c: Criteria, l: Limits, cluster: set<Item>, selects: (string, Item) -> bool)
    returns (items: seq<Item>)
    requires Validate(h, q) == LabelQuery(c)
    requires Faithful(h.server, q.child, cluster, selects)
    requires ResultOf(q.id, Execute(h, q, LabelPlan(c, q.parents), l)).error == None
    ensures var matches := ResultOf(q.id, Execute(h, q, LabelPlan(c, q.parents), l)).matches;
            && Behind(ContextOf(h, q), items, matches)
            && (forall item :: item in items <==> item in cluster && exists p :: p in q.parents && Selects(c, p, item, selects))
            && forall i :: 0 <= i < |items| ==> matches[i].parentUIDs == SelectorsAmong(c, q.parents, items[i], selects)
  {
    var plan := LabelPlan(c, q.parents);
    var ctx := ContextOf(h, q);
    var r := Execute(h, q, plan, l);
    LabelQueryNamespaced(h, q, c);
    RunExact(ctx, Start(l), h.server, q.child, plan, Fuel(l.lists), cluster, selects);
    items := ItemsBehind(ctx, r.state.entries, plan, cluster, selects);
    forall item
      ensures Dedup(Attributed(plan, selects, item)) == Dedup(Selecting(c, q.parents, item, selects))
      ensures Attributed(plan, selects, item) != [] <==> exists p :: p in q.parents && Selects(c, p, item, selects)
    {
      LabelAttributionOf(c, q.parents, selects, item);
    }
  }

  lemma LabelAttributionOf(c: Criteria, parents: seq<ParentRef>, selects: (string, Item) -> bool, item: Item)
    ensures Dedup(Attributed(LabelPlan(c, parents), selects, item)) == Dedup(Selecting(c, parents, item, selects))
    ensures Attributed(LabelPlan(c, parents), selects, item) != [] <==> exists p :: p in parents && Selects(c, p, item, selects)
  {
    var out := Selecting(c, parents, item, selects);
    LabelAttribution(c, parents, selects, item, []);
    DedupEmpty(Attributed(LabelPlan(c, parents), selects, item));
    DedupEmpty(out);
    if p :| p in parents && Selects(c, p, item, selects) { SelectingMeaning(c, parents, item, selects, p.uid); }
    if out != [] { SelectingMeaning(c, parents, item, selects, out[0]); }
  }
}
