/**
 The resource-tree match engine as a pure specification.

 A query becomes a plan of namespace walks; the plan and the API server together determine a
 script of actions (issue a LIST call, offer an item, fail); running the query is a fold over
 that script with three budgets: response bytes, LIST calls and continuation pages.
 */
module ResourceTree {
  import opened Sequences

  const MAX_CONTINUATION_PAGES_PER_QUERY: int := 128

  datatype ParentRef = ParentRef(uid: string, namespace: string, name: string)

  datatype ChildKind = ChildKind(group: string, version: string, kind: string, resource: string)

  /** One object as the API server returns it: its identity, its owner UIDs and everything else. */
  datatype Item = Item(uid: string, namespace: string, name: string, owners: seq<string>, body: string)

  /** What identifies a child: its UID, or namespace/name for an object served without one. */
  function ChildKey(item: Item): string {
    if item.uid != "" then item.uid else item.namespace + "/" + item.name
  }

  datatype Request = Request(child: ChildKind, namespace: string, selector: string, cont: string)

  datatype Failure = Forbidden | Deadline | Internal

  datatype Reply = Page(items: seq<Item>, next: string) | ListFailed(error: Failure)

  /** The API server: any deterministic function of the request. */
  type Server = Request -> Reply

  /**
   What one query runs against: how an object is shaped and marshalled (None: it cannot be)
   and how long a UID is once JSON-escaped.
   */
  datatype Context = Context(render: Item -> Option<string>, escapedLength: string -> nat)

  /** The bytes one parent UID takes in the response: the escaped UID and one separator. */
  function UidCost(ctx: Context, uid: string): nat {
    ctx.escapedLength(uid) + 1
  }

  function UidsCost(ctx: Context, uids: seq<string>): nat {
    if uids == [] then 0 else UidsCost(ctx, uids[..|uids| - 1]) + UidCost(ctx, uids[|uids| - 1])
  }

  /** One accumulated match. */
  datatype Entry = Entry(key: string, parentUIDs: seq<string>, raw: string)

  function EntryCost(ctx: Context, e: Entry): nat {
    |e.raw| + UidsCost(ctx, e.parentUIDs)
  }

  function EntriesCost(ctx: Context, entries: seq<Entry>): nat {
    if entries == [] then 0 else EntriesCost(ctx, entries[..|entries| - 1]) + EntryCost(ctx, entries[|entries| - 1])
  }

  function Keys(entries: seq<Entry>): (keys: seq<string>)
    ensures |keys| == |entries|
    ensures forall i :: 0 <= i < |keys| ==> keys[i] == entries[i].key
  {
    seq(|entries|, i requires 0 <= i < |entries| => entries[i].key)
  }

  /** A query in progress: its matches, its match limit, what is left of its budgets, and the LIST calls it made. */
  datatype State = State(entries: seq<Entry>, limit: int, remaining: int, lists: int, conts: int, calls: seq<Request>)

  datatype Outcome = Done | Truncated | Failed(error: Failure)

  datatype Ran = Ran(state: State, outcome: Outcome)

  datatype Action =
    | Call(request: Request)
    | Offer(item: Item, uids: seq<string>)
    | Fail(error: Failure)

  datatype Merged = Merged(uids: seq<string>, remaining: int, fits: bool)

  /** New parent UIDs join a known child one by one, each charged, until one does not fit. */
  function Merge(ctx: Context, have: seq<string>, remaining: int, uids: seq<string>): Merged
    decreases |uids|
  {
    if uids == [] then Merged(have, remaining, true)
    else if uids[0] in have then Merge(ctx, have, remaining, uids[1..])
    else if UidCost(ctx, uids[0]) > remaining then Merged(have, remaining, false)
    else Merge(ctx, have + [uids[0]], remaining - UidCost(ctx, uids[0]), uids[1..])
  }

  /** Accept one matched item, as a new match or as more parents of a known one. */
  function Add(ctx: Context, s: State, item: Item, uids: seq<string>): Ran {
    var key := ChildKey(item);
    var at := FirstIndex(Keys(s.entries), key);
    if at < |s.entries| then
      var m := Merge(ctx, s.entries[at].parentUIDs, s.remaining, uids);
      Ran(s.(entries := s.entries[at := s.entries[at].(parentUIDs := m.uids)], remaining := m.remaining),
          if m.fits then Done else Truncated)
    else if |s.entries| >= s.limit then Ran(s, Truncated)
    else match ctx.render(item)
      case None => Ran(s, Failed(Internal))
      case Some(raw) =>
        var e := Entry(key, Dedup(uids), raw);
        if EntryCost(ctx, e) > s.remaining then Ran(s, Truncated)
        else Ran(s.(entries := s.entries + [e], remaining := s.remaining - EntryCost(ctx, e)), Done)
  }

  function IssueList(s: State, request: Request): Ran {
    if s.lists <= 0 then Ran(s, Truncated)
    else Ran(s.(lists := s.lists - 1, calls := s.calls + [request]), Done)
  }

  /** Following a continue token spends the continuation budget; every LIST spends the list budget. */
  function Issue(s: State, request: Request): Ran {
    if request.cont == "" then IssueList(s, request)
    else if s.conts <= 0 then Ran(s, Truncated)
    else IssueList(s.(conts := s.conts - 1), request)
  }

  function Step(ctx: Context, s: State, a: Action): Ran {
    match a
    case Call(request) => Issue(s, request)
    case Offer(item, uids) => if uids == [] then Ran(s, Done) else Add(ctx, s, item, uids)
    case Fail(error) => Ran(s, Failed(error))
  }

  /** The fold: actions are taken in order until one does not succeed. */
  function Run(ctx: Context, s: State, script: seq<Action>): Ran
    decreases |script|
  {
    if script == [] then Ran(s, Done)
    else
      var r := Step(ctx, s, script[0]);
      if r.outcome == Done then Run(ctx, r.state, script[1..]) else r
  }

  /** One namespace listing and the parents its items are attributed to. */
  datatype Walk = Walk(namespace: string, selector: string, uids: seq<string>, byOwner: bool)

  function Matched(w: Walk, item: Item): seq<string> {
    if w.byOwner then Keep(w.uids, item.owners) else w.uids
  }

  function Offers(w: Walk, items: seq<Item>): (script: seq<Action>)
    ensures |script| == |items|
    ensures forall i :: 0 <= i < |items| ==> script[i] == Offer(items[i], Matched(w, items[i]))
  {
    seq(|items|, i requires 0 <= i < |items| => Offer(items[i], Matched(w, items[i])))
  }

  /**
   The actions of one walk from continue token `cont`. A server may hand out continue tokens for
   ever, so the script is cut after `fuel` further pages; a run never gets that far once `fuel`
   is at least its list budget (`RunFuel`).
   */
  function WalkScript(server: Server, child: ChildKind, w: Walk, cont: string, fuel: nat): seq<Action>
    decreases fuel
  {
    var request := Request(child, w.namespace, w.selector, cont);
    if fuel == 0 then [Call(request), Fail(Internal)]
    else match server(request)
      case ListFailed(error) => [Call(request), Fail(error)]
      case Page(items, next) =>
        [Call(request)] + Offers(w, items) +
        (if next == "" then [] else WalkScript(server, child, w, next, fuel - 1))
  }

  function PlanScript(server: Server, child: ChildKind, plan: seq<Walk>, fuel: nat): seq<Action> {
    if plan == [] then []
    else WalkScript(server, child, plan[0], "", fuel) + PlanScript(server, child, plan[1..], fuel)
  }

  // ----- plans ----------------------------------------------------------------------------

  function Namespaces(parents: seq<ParentRef>): (out: seq<string>)
    ensures |out| == |parents|
    ensures forall i :: 0 <= i < |out| ==> out[i] == parents[i].namespace
  {
    seq(|parents|, i requires 0 <= i < |parents| => parents[i].namespace)
  }

  /** UIDs of the parents that live in `ns`, in request order, repeats included. */
  function UidsIn(parents: seq<ParentRef>, ns: string): seq<string> {
    if parents == [] then []
    else if parents[0].namespace == ns then [parents[0].uid] + UidsIn(parents[1..], ns)
    else UidsIn(parents[1..], ns)
  }

  function OwnerWalk(parents: seq<ParentRef>, ns: string): Walk {
    Walk(ns, "", Dedup(UidsIn(parents, ns)), true)
  }

  function OwnerWalks(parents: seq<ParentRef>, namespaces: seq<string>): (plan: seq<Walk>)
    ensures |plan| == |namespaces|
    ensures forall i :: 0 <= i < |plan| ==> plan[i] == OwnerWalk(parents, namespaces[i])
  {
    seq(|namespaces|, i requires 0 <= i < |namespaces| => OwnerWalk(parents, namespaces[i]))
  }

  /** ownerRef: one walk per distinct parent namespace, looking only for that namespace's parents. */
  function OwnerPlan(parents: seq<ParentRef>): seq<Walk> {
    OwnerWalks(parents, Dedup(Namespaces(parents)))
  }

  /**
   Validated labelSelector criteria. `selectorFor` stands for token substitution followed by
   selector validation: None when the substituted labels cannot form a selector.
   */
  datatype Criteria = Criteria(namespaces: seq<string>, usesName: bool, usesNamespace: bool,
                               selectorFor: ParentRef -> Option<string>)

  predicate Skipped(c: Criteria, p: ParentRef) {
    || (c.namespaces == [] && p.namespace == "")
    || (c.usesName && p.name == "")
    || (c.usesNamespace && p.namespace == "")
    || c.selectorFor(p).None?
  }

  function Searched(c: Criteria, p: ParentRef): seq<string> {
    if c.namespaces == [] then [p.namespace] else c.namespaces
  }

  function LabelWalk(c: Criteria, p: ParentRef, ns: string): Walk
    requires !Skipped(c, p)
  {
    Walk(ns, c.selectorFor(p).value, [p.uid], false)
  }

  function LabelWalks(c: Criteria, p: ParentRef, namespaces: seq<string>): (plan: seq<Walk>)
    requires !Skipped(c, p)
    ensures |plan| == |namespaces|
    ensures forall i :: 0 <= i < |plan| ==> plan[i] == LabelWalk(c, p, namespaces[i])
  {
    seq(|namespaces|, i requires 0 <= i < |namespaces| => LabelWalk(c, p, namespaces[i]))
  }

  /** labelSelector: for every parent that is not skipped, one walk per searched namespace. */
  function LabelPlan(c: Criteria, parents: seq<ParentRef>): seq<Walk> {
    if parents == [] then []
    else (if Skipped(c, parents[0]) then [] else LabelWalks(c, parents[0], Searched(c, parents[0])))
         + LabelPlan(c, parents[1..])
  }

  // ----- basic facts about the fold ---------------------------------------------------------

  lemma {:induction false} RunAppend(ctx: Context, s: State, a: seq<Action>, b: seq<Action>)
    ensures Run(ctx, s, a + b) ==
            if Run(ctx, s, a).outcome == Done then Run(ctx, Run(ctx, s, a).state, b) else Run(ctx, s, a)
    decreases |a|
  {
    if a == [] {
      assert a + b == b;
    } else {
      assert (a + b)[0] == a[0] && (a + b)[1..] == a[1..] + b;
      var r := Step(ctx, s, a[0]);
      if r.outcome == Done { RunAppend(ctx, r.state, a[1..], b); }
    }
  }

  lemma {:induction false} OffersKeepBudgets(ctx: Context, s: State, w: Walk, items: seq<Item>)
    ensures var r := Run(ctx, s, Offers(w, items));
            r.state.lists == s.lists && r.state.conts == s.conts && r.state.calls == s.calls
    decreases |items|
  {
    if items != [] {
      assert Offers(w, items)[1..] == Offers(w, items[1..]);
      var r := Step(ctx, s, Offers(w, items)[0]);
      if r.outcome == Done { OffersKeepBudgets(ctx, r.state, w, items[1..]); }
    }
  }

  /** What is left of a walk once the call for token `cont` has been made or refused. */
  function AfterCall(ctx: Context, called: Ran, server: Server, child: ChildKind, w: Walk, cont: string, fuel: nat): Ran {
    if called.outcome != Done then called
    else if fuel == 0 then Ran(called.state, Failed(Internal))
    else match server(Request(child, w.namespace, w.selector, cont))
      case ListFailed(error) => Ran(called.state, Failed(error))
      case Page(items, next) =>
        var paged := Run(ctx, called.state, Offers(w, items));
        if paged.outcome != Done || next == "" then paged
        else Run(ctx, paged.state, WalkScript(server, child, w, next, fuel - 1))
  }

  lemma RunFailure(ctx: Context, s: State, request: Request, error: Failure)
    ensures Run(ctx, s, [Call(request), Fail(error)]) ==
            if Issue(s, request).outcome == Done then Ran(Issue(s, request).state, Failed(error)) else Issue(s, request)
  {
  }

  lemma RunCall(ctx: Context, s: State, request: Request, offers: seq<Action>, rest: seq<Action>)
    ensures Run(ctx, s, [Call(request)] + offers + rest) ==
            var called := Issue(s, request);
            if called.outcome != Done then called
            else if Run(ctx, called.state, offers).outcome == Done then Run(ctx, Run(ctx, called.state, offers).state, rest)
            else Run(ctx, called.state, offers)
  {
    assert ([Call(request)] + offers + rest)[1..] == offers + rest;
    RunAppend(ctx, Issue(s, request).state, offers, rest);
  }

  /** One page of a walk: issue the call, offer its items, then end or follow the continue token. */
  lemma RunPage(ctx: Context, s: State, server: Server, child: ChildKind, w: Walk, cont: string, fuel: nat)
    ensures Run(ctx, s, WalkScript(server, child, w, cont, fuel)) ==
            AfterCall(ctx, Issue(s, Request(child, w.namespace, w.selector, cont)), server, child, w, cont, fuel)
  {
    var request := Request(child, w.namespace, w.selector, cont);
    if fuel > 0 && server(request).Page? {
      var Page(items, next) := server(request);
      RunCall(ctx, s, request, Offers(w, items), if next == "" then [] else WalkScript(server, child, w, next, fuel - 1));
    } else {
      RunFailure(ctx, s, request, if fuel == 0 then Internal else server(request).error);
    }
  }

  /** A continue token with no continuation budget left ends the walk as truncated. */
  lemma RunOutOfPages(ctx: Context, s: State, server: Server, child: ChildKind, w: Walk, cont: string, fuel: nat)
    requires cont != "" && s.conts <= 0
    ensures Run(ctx, s, WalkScript(server, child, w, cont, fuel)) == Ran(s, Truncated)
  {
    RunPage(ctx, s, server, child, w, cont, fuel);
  }

  /** What follows a call does not depend on where the script is cut off either. */
  lemma {:induction false} CallFuel(ctx: Context, called: Ran, server: Server, child: ChildKind, w: Walk, cont: string, f: nat, g: nat)
    requires called.outcome == Done && called.state.lists < f && called.state.lists < g
    requires f > 0 && g > 0
    ensures AfterCall(ctx, called, server, child, w, cont, f) == AfterCall(ctx, called, server, child, w, cont, g)
    decreases f, 0
  {
    match server(Request(child, w.namespace, w.selector, cont))
    case ListFailed(_) =>
    case Page(items, next) =>
      var paged := Run(ctx, called.state, Offers(w, items));
      OffersKeepBudgets(ctx, called.state, w, items);
      if paged.outcome == Done && next != "" { WalkFuel(ctx, paged.state, server, child, w, next, f - 1, g - 1); }
  }

  /** Where a walk's script is cut off cannot be observed by a run whose list budget ends first. */
  lemma {:induction false} WalkFuel(ctx: Context, s: State, server: Server, child: ChildKind, w: Walk, cont: string, f: nat, g: nat)
    requires s.lists <= f && s.lists <= g
    ensures Run(ctx, s, WalkScript(server, child, w, cont, f)) == Run(ctx, s, WalkScript(server, child, w, cont, g))
    decreases f, 1
  {
    var called := Issue(s, Request(child, w.namespace, w.selector, cont));
    if called.outcome == Done { CallFuel(ctx, called, server, child, w, cont, f, g); }
    RunPage(ctx, s, server, child, w, cont, f);
    RunPage(ctx, s, server, child, w, cont, g);
  }

  lemma {:induction false} RunFuel(ctx: Context, s: State, server: Server, child: ChildKind, plan: seq<Walk>, f: nat, g: nat)
    requires s.lists <= f && s.lists <= g
    ensures Run(ctx, s, PlanScript(server, child, plan, f)) == Run(ctx, s, PlanScript(server, child, plan, g))
    decreases |plan|
  {
    if plan != [] {
      var a, b := WalkScript(server, child, plan[0], "", f), WalkScript(server, child, plan[0], "", g);
      RunAppend(ctx, s, a, PlanScript(server, child, plan[1..], f));
      RunAppend(ctx, s, b, PlanScript(server, child, plan[1..], g));
      WalkFuel(ctx, s, server, child, plan[0], "", f, g);
      RunSpends(ctx, s, a);
      if Run(ctx, s, a).outcome == Done { RunFuel(ctx, Run(ctx, s, a).state, server, child, plan[1..], f, g); }
    }
  }

  /** Budgets are only ever spent. */
  lemma {:induction false} RunSpends(ctx: Context, s: State, script: seq<Action>)
    ensures var r := Run(ctx, s, script);
            r.state.lists <= s.lists && r.state.conts <= s.conts && r.state.remaining <= s.remaining
    decreases |script|
  {
    if script != [] {
      StepSpends(ctx, s, script[0]);
      var r := Step(ctx, s, script[0]);
      if r.outcome == Done { RunSpends(ctx, r.state, script[1..]); }
    }
  }

  lemma StepSpends(ctx: Context, s: State, a: Action)
    ensures var r := Step(ctx, s, a).state;
            r.lists <= s.lists && r.conts <= s.conts && r.remaining <= s.remaining
  {
    if a.Offer? {
      var at := FirstIndex(Keys(s.entries), ChildKey(a.item));
      if at < |s.entries| { MergeSpends(ctx, s.entries[at].parentUIDs, s.remaining, a.uids); }
    }
  }

  lemma {:induction false} MergeSpends(ctx: Context, have: seq<string>, remaining: int, uids: seq<string>)
    ensures Merge(ctx, have, remaining, uids).remaining <= remaining
    decreases |uids|
  {
    if uids != [] {
      if uids[0] in have { MergeSpends(ctx, have, remaining, uids[1..]); }
      else if UidCost(ctx, uids[0]) <= remaining {
        MergeSpends(ctx, have + [uids[0]], remaining - UidCost(ctx, uids[0]), uids[1..]);
      }
    }
  }
}
