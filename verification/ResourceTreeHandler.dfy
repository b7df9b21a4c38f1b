/** The match engine in its own form: budgets and accumulator updated in place, matchers as loops. */
module ResourceTreeHandler {
  import opened Sequences
  import opened ResourceTree
  import opened ResourceTreeQueries

  class ResponseBudget {
    var remaining: int

    constructor (bytes: int)
      ensures remaining == bytes
    {
      remaining := bytes;
    }

    method Take(n: int) returns (ok: bool)
      modifies this
      ensures ok == (n <= old(remaining))
      ensures remaining == if ok then old(remaining) - n else old(remaining)
    {
      if n > remaining {
        return false;
      }
      remaining := remaining - n;
      return true;
    }
  }

  class WalkBudget {
    var continuations: int
    var lists: int
    ghost var calls: seq<Request>

    constructor (continuations: int, lists: int)
      ensures this.continuations == continuations && this.lists == lists && calls == []
    {
      this.continuations, this.lists, calls := continuations, lists, [];
    }

    method TakeContinuation() returns (ok: bool)
      modifies this
      ensures ok == (old(continuations) > 0)
      ensures continuations == if ok then old(continuations) - 1 else old(continuations)
      ensures lists == old(lists) && calls == old(calls)
    {
      if continuations <= 0 {
        return false;
      }
      continuations := continuations - 1;
      return true;
    }

    method TakeList(ghost request: Request) returns (ok: bool)
      modifies this
      ensures ok == (old(lists) > 0)
      ensures lists == if ok then old(lists) - 1 else old(lists)
      ensures calls == if ok then old(calls) + [request] else old(calls)
      ensures continuations == old(continuations)
    {
      if lists <= 0 {
        return false;
      }
      lists := lists - 1;
      calls := calls + [request];
      return true;
    }
  }

  ghost function Zip(keys: seq<string>, matches: seq<MatchedObject>): (out: seq<Entry>)
    requires |keys| == |matches|
    ensures |out| == |matches|
    ensures forall i :: 0 <= i < |out| ==> out[i] == Entry(keys[i], matches[i].parentUIDs, matches[i].raw)
  {
    seq(|keys|, i requires 0 <= i < |keys| => Entry(keys[i], matches[i].parentUIDs, matches[i].raw))
  }

  lemma ZipSnoc(keys: seq<string>, matches: seq<MatchedObject>, key: string, m: MatchedObject)
    requires |keys| == |matches|
    ensures Zip(keys + [key], matches + [m]) == Zip(keys, matches) + [Entry(key, m.parentUIDs, m.raw)]
  {
  }

  lemma ZipUpdate(keys: seq<string>, matches: seq<MatchedObject>, at: nat, m: MatchedObject)
    requires |keys| == |matches| && at < |keys|
    ensures Zip(keys, matches[at := m]) == Zip(keys, matches)[at := Entry(keys[at], m.parentUIDs, m.raw)]
  {
  }

  class MatchAccumulator {
    const ctx: Context
    const limit: int
    const budget: ResponseBudget
    var matches: seq<MatchedObject>
    var index: map<string, nat>
    var parentSeen: map<string, set<string>>
    ghost var keys: seq<string>

    constructor (ctx: Context, limit: int, budget: ResponseBudget)
      ensures Valid() && Entries() == []
      ensures this.ctx == ctx && this.limit == limit && this.budget == budget
    {
      this.ctx, this.limit, this.budget := ctx, limit, budget;
      matches, index, parentSeen, keys := [], map[], map[], [];
    }

    ghost predicate Valid()
      reads this
    {
      && |keys| == |matches|
      && Distinct(keys)
      && (forall key :: key in index <==> key in keys)
      && index.Keys == parentSeen.Keys
      && (forall i :: 0 <= i < |keys| ==> index[keys[i]] == i)
      && forall i, uid :: 0 <= i < |keys| ==> (uid in parentSeen[keys[i]] <==> uid in matches[i].parentUIDs)
    }

    ghost function Entries(): (out: seq<Entry>)
      reads this
      requires |keys| == |matches|
      ensures |out| == |matches|
      ensures forall i :: 0 <= i < |out| ==> out[i] == Entry(keys[i], matches[i].parentUIDs, matches[i].raw)
    {
      Zip(keys, matches)
    }

    lemma Locate(key: string)
      requires Valid()
      ensures FirstIndex(Keys(Entries()), key) == if key in index then index[key] else |matches|
      ensures key in index ==> index[key] < |matches|
    {
    }

    method AppendParent(key: string, uid: string)
      requires Valid() && key in index && uid !in parentSeen[key]
      modifies this
      ensures Valid() && keys == old(keys) && index == old(index)
      ensures var at := index[key];
              && |matches| == |old(matches)|
              && matches == old(matches)[at := old(matches[at]).(parentUIDs := old(matches[at]).parentUIDs + [uid])]
    {
      var at := index[key];
      parentSeen := parentSeen[key := parentSeen[key] + {uid}];
      matches := matches[at := matches[at].(parentUIDs := matches[at].parentUIDs + [uid])];
    }

    /** A known child grows by its new parent UIDs, each charged before it is appended. */
    method MergeParents(key: string, uids: seq<string>) returns (fits: bool)
      requires Valid() && key in index
      modifies this, budget
      ensures Valid() && keys == old(keys)
      ensures var at := old(index[key]);
              var m := Merge(ctx, old(matches[at].parentUIDs), old(budget.remaining), uids);
              && fits == m.fits && budget.remaining == m.remaining
              && matches == old(matches)[at := old(matches[at]).(parentUIDs := m.uids)]
    {
      var at := index[key];
      var i := 0;
      ghost var was := matches;
      ghost var goal := Merge(ctx, matches[at].parentUIDs, budget.remaining, uids);
      while i < |uids|
        invariant 0 <= i <= |uids|
        invariant Valid() && keys == old(keys) && index == old(index)
        invariant |matches| == |was| && matches == was[at := was[at].(parentUIDs := matches[at].parentUIDs)]
        invariant Merge(ctx, matches[at].parentUIDs, budget.remaining, uids[i..]) == goal
      {
        var uid := uids[i];
        assert uids[i..][1..] == uids[i + 1..];
        assert keys[at] == key;
        if uid !in parentSeen[key] {
          var ok := budget.Take(UidCost(ctx, uid));
          if !ok {
            return false;
          }
          AppendParent(key, uid);
        }
        i := i + 1;
      }
      return true;
    }

    /** Distinct UIDs of a new match and what the whole match costs. */
    method Price(raw: string, parentUIDs: seq<string>) returns (uids: seq<string>, seen: set<string>, cost: nat)
      ensures uids == Dedup(parentUIDs)
      ensures forall uid :: uid in seen <==> uid in uids
      ensures cost == |raw| + UidsCost(ctx, uids)
    {
      uids, seen, cost := [], {}, |raw|;
      for i := 0 to |parentUIDs|
        invariant AppendAll(uids, parentUIDs[i..]) == Dedup(parentUIDs)
        invariant forall uid :: uid in seen <==> uid in uids
        invariant cost == |raw| + UidsCost(ctx, uids)
      {
        var uid := parentUIDs[i];
        assert parentUIDs[i..][1..] == parentUIDs[i + 1..];
        if uid !in seen {
          assert (uids + [uid])[..|uids|] == uids;
          seen, uids, cost := seen + {uid}, uids + [uid], cost + UidCost(ctx, uid);
        }
      }
    }

    method Add(item: Item, parentUIDs: seq<string>, ghost s: State) returns (outcome: Outcome)
      requires Valid() && s.entries == Entries() && s.limit == limit && s.remaining == budget.remaining
      modifies this, budget
      ensures Valid()
      ensures Ran(s.(entries := Entries(), remaining := budget.remaining), outcome) == ResourceTree.Add(ctx, s, item, parentUIDs)
    {
      var key := ChildKey(item);
      Locate(key);
      if key in index {
        outcome := AddKnown(key, item, parentUIDs, s);
      } else {
        outcome := AddNew(key, item, parentUIDs, s);
      }
    }

    method AddKnown(key: string, item: Item, parentUIDs: seq<string>, ghost s: State) returns (outcome: Outcome)
      requires Valid() && key == ChildKey(item) && key in index
      requires s.entries == Entries() && s.limit == limit && s.remaining == budget.remaining
      requires FirstIndex(Keys(s.entries), key) == index[key] < |s.entries|
      modifies this, budget
      ensures Valid()
      ensures Ran(s.(entries := Entries(), remaining := budget.remaining), outcome) == ResourceTree.Add(ctx, s, item, parentUIDs)
    {
      ghost var at, was := index[key], matches;
      ghost var m := Merge(ctx, matches[at].parentUIDs, budget.remaining, parentUIDs);
      var fits := MergeParents(key, parentUIDs);
      outcome := if fits then Done else Truncated;
      ZipUpdate(keys, was, at, was[at].(parentUIDs := m.uids));
      assert s.entries[at].parentUIDs == was[at].parentUIDs;
    }

    method AddNew(key: string, item: Item, parentUIDs: seq<string>, ghost s: State) returns (outcome: Outcome)
      requires Valid() && key == ChildKey(item) && key !in index
      requires s.entries == Entries() && s.limit == limit && s.remaining == budget.remaining
      requires FirstIndex(Keys(s.entries), key) == |s.entries|
      modifies this, budget
      ensures Valid()
      ensures Ran(s.(entries := Entries(), remaining := budget.remaining), outcome) == ResourceTree.Add(ctx, s, item, parentUIDs)
    {
      if |matches| >= limit {
        return Truncated;
      }
      var rendered := ctx.render(item);
      if rendered.None? {
        return Failed(Internal);
      }
      var uids, seen, cost := Price(rendered.value, parentUIDs);
      var ok := budget.Take(cost);
      if !ok {
        return Truncated;
      }
      Insert(key, seen, MatchedObject(uids, rendered.value));
      return Done;
    }

    method Insert(key: string, seen: set<string>, match_: MatchedObject)
      requires Valid() && key !in index
      requires forall uid :: uid in seen <==> uid in match_.parentUIDs
      modifies this
      ensures Valid()
      ensures Entries() == old(Entries()) + [Entry(key, match_.parentUIDs, match_.raw)]
    {
      index := index[key := |matches|];
      parentSeen := parentSeen[key := seen];
      ZipSnoc(keys, matches, key, match_);
      keys := keys + [key];
      matches := matches + [match_];
    }
  }

  /** The query in progress that the mutable objects stand for. */
  ghost function Snapshot(acc: MatchAccumulator, walk: WalkBudget): State
    reads acc, acc.budget, walk
    requires |acc.keys| == |acc.matches|
  {
    State(acc.Entries(), acc.limit, acc.budget.remaining, walk.lists, walk.continuations, walk.calls)
  }

  /** The UIDs among `uids` that own the item. */
  method OwnersOf(uids: seq<string>, item: Item) returns (matched: seq<string>)
    ensures matched == Keep(uids, item.owners)
  {
    matched := [];
    var owners := set uid | uid in item.owners;
    for i := 0 to |uids|
      invariant matched + Keep(uids[i..], item.owners) == Keep(uids, item.owners)
    {
      assert uids[i..][1..] == uids[i + 1..];
      if uids[i] in owners {
        matched := matched + [uids[i]];
      }
    }
  }

  /** `now` is `s` once the continuation budget has paid for following `cont`. */
  ghost predicate Paid(s: State, cont: string, now: State) {
    if cont == "" then now == s else s.conts > 0 && now == s.(conts := s.conts - 1)
  }

  /** One LIST call and the items of its page; the continue token when there is more to read. */
  method ReadPage(server: Server, child: ChildKind, w: Walk, cont: string, acc: MatchAccumulator, walk: WalkBudget, ghost left: nat, ghost s: State)
    returns (outcome: Outcome, next: string)
    requires acc.Valid() && walk.lists <= left && Paid(s, cont, Snapshot(acc, walk))
    modifies acc, acc.budget, walk
    ensures acc.Valid()
    ensures outcome == Done && next != "" ==> walk.lists == old(walk.lists) - 1 && old(walk.lists) > 0
    ensures Run(acc.ctx, s, WalkScript(server, child, w, cont, left)) ==
            if outcome == Done && next != "" then Run(acc.ctx, Snapshot(acc, walk), WalkScript(server, child, w, next, left - 1))
            else Ran(Snapshot(acc, walk), outcome)
  {
    next := "";
    var request := Request(child, w.namespace, w.selector, cont);
    RunPage(acc.ctx, s, server, child, w, cont, left);
    var ok := walk.TakeList(request);
    if !ok {
      return Truncated, "";
    }
    var reply := server(request);
    if reply.ListFailed? {
      return Failed(reply.error), "";
    }
    outcome := VisitAll(reply.items, w, acc, walk);
    next := reply.next;
  }

  /** Pages through one namespace's listing; every exit is an outcome of the walk's script. */
  method EachItem(server: Server, child: ChildKind, w: Walk, acc: MatchAccumulator, walk: WalkBudget, ghost fuel: nat) returns (outcome: Outcome)
    requires acc.Valid() && walk.lists <= fuel
    modifies acc, acc.budget, walk
    ensures acc.Valid()
    ensures Ran(Snapshot(acc, walk), outcome) == Run(acc.ctx, old(Snapshot(acc, walk)), WalkScript(server, child, w, "", fuel))
  {
    var cont := "";
    ghost var left, s := fuel, Snapshot(acc, walk);
    ghost var goal := Run(acc.ctx, s, WalkScript(server, child, w, "", fuel));
    while true
      invariant acc.Valid() && walk.lists <= left && Paid(s, cont, Snapshot(acc, walk))
      invariant Run(acc.ctx, s, WalkScript(server, child, w, cont, left)) == goal
      decreases walk.lists
    {
      outcome, cont := ReadPage(server, child, w, cont, acc, walk, left, s);
      if outcome != Done || cont == "" {
        return;
      }
      left, s := left - 1, Snapshot(acc, walk);
      var ok := walk.TakeContinuation();
      if !ok {
        RunOutOfPages(acc.ctx, s, server, child, w, cont, left);
        return Truncated;
      }
    }
  }

  /** One listed item: attributed, and handed to the accumulator when someone matched it. */
  method Visit(item: Item, w: Walk, acc: MatchAccumulator, walk: WalkBudget) returns (outcome: Outcome)
    requires acc.Valid()
    modifies acc, acc.budget
    ensures acc.Valid()
    ensures Ran(Snapshot(acc, walk), outcome) == Step(acc.ctx, old(Snapshot(acc, walk)), Offer(item, Matched(w, item)))
  {
    var matched := w.uids;
    if w.byOwner {
      matched := OwnersOf(w.uids, item);
    }
    if matched == [] {
      return Done;
    }
    outcome := acc.Add(item, matched, Snapshot(acc, walk));
  }

  method VisitAll(items: seq<Item>, w: Walk, acc: MatchAccumulator, walk: WalkBudget) returns (outcome: Outcome)
    requires acc.Valid()
    modifies acc, acc.budget
    ensures acc.Valid()
    ensures Ran(Snapshot(acc, walk), outcome) == Run(acc.ctx, old(Snapshot(acc, walk)), Offers(w, items))
  {
    ghost var goal := Run(acc.ctx, Snapshot(acc, walk), Offers(w, items));
    for i := 0 to |items|
      invariant acc.Valid()
      invariant Run(acc.ctx, Snapshot(acc, walk), Offers(w, items)[i..]) == goal
    {
      ghost var script := Offers(w, items)[i..];
      assert script[0] == Offer(items[i], Matched(w, items[i])) && script[1..] == Offers(w, items)[i + 1..];
      outcome := Visit(items[i], w, acc, walk);
      if outcome != Done {
        return;
      }
    }
    return Done;
  }

  method ParentNamespaces(parents: seq<ParentRef>) returns (namespaces: seq<string>)
    ensures namespaces == Dedup(Namespaces(parents))
  {
    namespaces := [];
    var seen := {};
    for i := 0 to |parents|
      invariant AppendAll(namespaces, Namespaces(parents)[i..]) == Dedup(Namespaces(parents))
      invariant forall ns :: ns in seen <==> ns in namespaces
    {
      var ns := parents[i].namespace;
      assert Namespaces(parents)[i..][1..] == Namespaces(parents)[i + 1..];
      if ns !in seen {
        seen, namespaces := seen + {ns}, namespaces + [ns];
      }
    }
  }

  method NamespaceUids(parents: seq<ParentRef>, ns: string) returns (uids: seq<string>)
    ensures uids == Dedup(UidsIn(parents, ns))
  {
    uids := [];
    var seen := {};
    for i := 0 to |parents|
      invariant AppendAll(uids, UidsIn(parents[i..], ns)) == Dedup(UidsIn(parents, ns))
      invariant forall uid :: uid in seen <==> uid in uids
    {
      var p := parents[i];
      assert parents[i..][0] == p && parents[i..][1..] == parents[i + 1..];
      ghost var rest := UidsIn(parents[i + 1..], ns);
      assert ([p.uid] + rest)[1..] == rest;
      if p.namespace == ns && p.uid !in seen {
        seen, uids := seen + {p.uid}, uids + [p.uid];
      }
    }
  }

  method MatchOwnerRef(server: Server, q: Query, acc: MatchAccumulator, walk: WalkBudget, ghost fuel: nat) returns (outcome: Outcome)
    requires acc.Valid() && walk.lists <= fuel
    modifies acc, acc.budget, walk
    ensures acc.Valid()
    ensures Ran(Snapshot(acc, walk), outcome) == Run(acc.ctx, old(Snapshot(acc, walk)), PlanScript(server, q.child, OwnerPlan(q.parents), fuel))
  {
    var namespaces := ParentNamespaces(q.parents);
    ghost var goal := Run(acc.ctx, Snapshot(acc, walk), PlanScript(server, q.child, OwnerPlan(q.parents), fuel));
    for i := 0 to |namespaces|
      invariant acc.Valid() && walk.lists <= fuel
      invariant Run(acc.ctx, Snapshot(acc, walk), PlanScript(server, q.child, OwnerWalks(q.parents, namespaces[i..]), fuel)) == goal
    {
      var uids := NamespaceUids(q.parents, namespaces[i]);
      ghost var plan := OwnerWalks(q.parents, namespaces[i..]);
      ghost var script := WalkScript(server, q.child, plan[0], "", fuel);
      assert plan[1..] == OwnerWalks(q.parents, namespaces[i + 1..]);
      RunAppend(acc.ctx, Snapshot(acc, walk), script, PlanScript(server, q.child, plan[1..], fuel));
      RunSpends(acc.ctx, Snapshot(acc, walk), script);
      outcome := EachItem(server, q.child, Walk(namespaces[i], "", uids, true), acc, walk, fuel);
      if outcome != Done {
        return;
      }
    }
    return Done;
  }

  method MatchLabelSelector(server: Server, q: Query, c: Criteria, acc: MatchAccumulator, walk: WalkBudget, ghost fuel: nat) returns (outcome: Outcome)
    requires acc.Valid() && walk.lists <= fuel
    modifies acc, acc.budget, walk
    ensures acc.Valid()
    ensures Ran(Snapshot(acc, walk), outcome) == Run(acc.ctx, old(Snapshot(acc, walk)), PlanScript(server, q.child, LabelPlan(c, q.parents), fuel))
  {
    ghost var goal := Run(acc.ctx, Snapshot(acc, walk), PlanScript(server, q.child, LabelPlan(c, q.parents), fuel));
    for i := 0 to |q.parents|
      invariant acc.Valid() && walk.lists <= fuel
      invariant Run(acc.ctx, Snapshot(acc, walk), PlanScript(server, q.child, LabelPlan(c, q.parents[i..]), fuel)) == goal
    {
      var p := q.parents[i];
      assert q.parents[i..][0] == p && q.parents[i..][1..] == q.parents[i + 1..];
      ghost var rest := LabelPlan(c, q.parents[i + 1..]);
      if c.namespaces == [] && p.namespace == "" {
        assert [] + rest == rest;
        continue;
      }
      if (c.usesName && p.name == "") || (c.usesNamespace && p.namespace == "") {
        assert [] + rest == rest;
        continue;
      }
      var selector := c.selectorFor(p);
      if selector.None? {
        assert [] + rest == rest;
        continue;
      }
      var namespaces := if c.namespaces == [] then [p.namespace] else c.namespaces;
      outcome := SearchNamespaces(server, q, c, p, namespaces, acc, walk, fuel, rest);
      if outcome != Done {
        return;
      }
    }
    return Done;
  }

  /** One parent's searched namespaces, before the rest of the plan. */
  method SearchNamespaces(server: Server, q: Query, c: Criteria, p: ParentRef, namespaces: seq<string>, acc: MatchAccumulator,
                          walk: WalkBudget, ghost fuel: nat, ghost rest: seq<Walk>) returns (outcome: Outcome)
    requires acc.Valid() && walk.lists <= fuel && !Skipped(c, p)
    modifies acc, acc.budget, walk
    ensures acc.Valid() && walk.lists <= fuel
    ensures Run(acc.ctx, old(Snapshot(acc, walk)), PlanScript(server, q.child, LabelWalks(c, p, namespaces) + rest, fuel)) ==
            if outcome == Done then Run(acc.ctx, Snapshot(acc, walk), PlanScript(server, q.child, rest, fuel))
            else Ran(Snapshot(acc, walk), outcome)
  {
    ghost var goal := Run(acc.ctx, Snapshot(acc, walk), PlanScript(server, q.child, LabelWalks(c, p, namespaces) + rest, fuel));
    for i := 0 to |namespaces|
      invariant acc.Valid() && walk.lists <= fuel
      invariant Run(acc.ctx, Snapshot(acc, walk), PlanScript(server, q.child, LabelWalks(c, p, namespaces[i..]) + rest, fuel)) == goal
    {
      var w := Walk(namespaces[i], c.selectorFor(p).value, [p.uid], false);
      ghost var plan := LabelWalks(c, p, namespaces[i..]) + rest;
      ghost var script := WalkScript(server, q.child, w, "", fuel);
      assert plan[0] == w && plan[1..] == LabelWalks(c, p, namespaces[i + 1..]) + rest;
      RunAppend(acc.ctx, Snapshot(acc, walk), script, PlanScript(server, q.child, plan[1..], fuel));
      RunSpends(acc.ctx, Snapshot(acc, walk), script);
      outcome := EachItem(server, q.child, w, acc, walk, fuel);
      if outcome != Done {
        return;
      }
    }
    assert LabelWalks(c, p, namespaces[|namespaces|..]) + rest == rest;
    return Done;
  }

  method RunOne(h: Handler, q: Query, duplicates: set<string>, expired: bool, budget: ResponseBudget) returns (result: MatchResult, ghost accumulated: seq<Entry>)
    modifies budget
    ensures Answer(result, budget.remaining, accumulated) == RunQuery(h, q, q.id in duplicates, expired, old(budget.remaining))
  {
    accumulated := [];
    if q.id == "" {
      return ErrorResult(q.id, CodeInvalidQuery), [];
    }
    if q.id in duplicates {
      return ErrorResult(q.id, CodeInvalidQuery), [];
    }
    if q.matcher != MATCHER_OWNER_REF && q.matcher != MATCHER_LABEL_SELECTOR {
      return ErrorResult(q.id, CodeUnsupportedMatcher), [];
    }
    var v := Validate(h, q);
    if v == Invalid {
      return ErrorResult(q.id, CodeInvalidQuery), [];
    }
    var acc := new MatchAccumulator(ContextOf(h, q), h.matchLimit, budget);
    var walk := new WalkBudget(MAX_CONTINUATION_PAGES_PER_QUERY, h.maxListCalls);
    if expired {
      return MatchResult(q.id, acc.matches, true, Some(CodeLimitExceeded)), [];
    }
    var outcome: Outcome;
    ghost var fuel := Fuel(h.maxListCalls);
    match v {
      case OwnerRefQuery => outcome := MatchOwnerRef(h.server, q, acc, walk, fuel);
      case LabelQuery(c) => outcome := MatchLabelSelector(h.server, q, c, acc, walk, fuel);
    }
    accumulated := acc.Entries();
    assert acc.matches == Strip(acc.Entries());
    match outcome {
      case Done => result := MatchResult(q.id, acc.matches, false, None);
      case Truncated => result := MatchResult(q.id, acc.matches, true, Some(CodeLimitExceeded));
      case Failed(Deadline) => result := MatchResult(q.id, acc.matches, true, Some(CodeLimitExceeded));
      case Failed(Forbidden) => result := ErrorResult(q.id, CodeForbidden);
      case Failed(Internal) => result := ErrorResult(q.id, CodeInternal);
    }
  }

  /** Ids that occur more than once: count them all, then keep those counted twice or more. */
  method DuplicateQueryIDs(queries: seq<Query>) returns (duplicates: set<string>)
    ensures duplicates == Duplicates(Ids(queries))
  {
    var counts: map<string, nat> := map[];
    for i := 0 to |queries|
      invariant forall id :: id in counts <==> id in Ids(queries[..i])
      invariant forall id :: id in counts ==> counts[id] >= 1
      invariant forall id :: id in counts ==> (counts[id] > 1 <==> id in Duplicates(Ids(queries[..i])))
    {
      var id := queries[i].id;
      DuplicatesSnoc(Ids(queries[..i]), id);
      assert Ids(queries[..i + 1]) == Ids(queries[..i]) + [id];
      counts := counts[id := if id in counts then counts[id] + 1 else 1];
    }
    assert queries[..|queries|] == queries;
    duplicates := set id | id in counts && counts[id] > 1;
  }

  lemma DuplicatesSnoc(ids: seq<string>, id: string)
    ensures Duplicates(ids + [id]) == Duplicates(ids) + (if id in ids then {id} else {})
  {
    var longer := ids + [id];
    forall x ensures x in Duplicates(longer) <==> x in Duplicates(ids) || (x == id && id in ids) {
      if x in Duplicates(ids) {
        var i, j :| 0 <= i < j < |ids| && ids[i] == ids[j] && ids[i] == x;
        assert longer[i] == longer[j] == x;
      }
      if x == id && id in ids {
        var i :| 0 <= i < |ids| && ids[i] == id;
        assert longer[i] == longer[|ids|] == x;
      }
      if x in Duplicates(longer) {
        var i, j :| 0 <= i < j < |longer| && longer[i] == longer[j] && longer[i] == x;
        if j < |ids| { assert ids[i] == ids[j] == x; } else { assert ids[i] == id; }
      }
    }
  }

  method Handle(h: Handler, version: string, queries: seq<Query>, expired: nat -> bool, encodedSize: seq<MatchResult> -> Option<nat>)
    returns (response: Response)
    ensures response == Respond(h, version, queries, expired, encodedSize)
  {
    if |queries| > MAX_QUERIES_PER_REQUEST {
      return BadRequest;
    }
    for i := 0 to |queries|
      invariant forall j :: 0 <= j < i ==> |queries[j].id| <= MAX_QUERY_ID_LENGTH
    {
      if |queries[i].id| > MAX_QUERY_ID_LENGTH {
        return BadRequest;
      }
    }
    var results: seq<MatchResult> := [];
    if version != PROTOCOL_VERSION {
      for i := 0 to |queries|
        invariant results == Unsupported(queries)[..i]
      {
        results := results + [ErrorResult(queries[i].id, CodeUnsupportedVersion)];
      }
      assert results == Unsupported(queries);
      return Encode(results, encodedSize);
    }
    var duplicates := DuplicateQueryIDs(queries);
    results := AnswerAll(h, queries, duplicates, expired);
    return Encode(results, encodedSize);
  }

  /** The batch loop: queries in order under one byte budget. */
  method AnswerAll(h: Handler, queries: seq<Query>, duplicates: set<string>, expired: nat -> bool) returns (results: seq<MatchResult>)
    ensures results == Results(Answers(h, queries, duplicates, expired, h.maxResponseBytes))
  {
    results := [];
    var budget := new ResponseBudget(h.maxResponseBytes);
    ghost var answers: seq<Answer> := [];
    for i := 0 to |queries|
      invariant answers == Answers(h, queries[..i], duplicates, expired, h.maxResponseBytes)
      invariant results == Results(answers)
      invariant budget.remaining == Left(answers, h.maxResponseBytes)
    {
      assert queries[..i + 1][..i] == queries[..i];
      var result, accumulated := RunOne(h, queries[i], duplicates, expired(i), budget);
      answers := answers + [Answer(result, budget.remaining, accumulated)];
      results := results + [result];
    }
    assert queries[..|queries|] == queries;
  }
}
