/** A run that is neither truncated nor failed reports exactly the children there are. */
module ResourceTreeExact {
  import opened Sequences
  import opened ResourceTree

  // ----- grouping: what a completed fold holds ------------------------------------------------

  ghost predicate Offered(a: Action, key: string) {
    a.Offer? && a.uids != [] && ChildKey(a.item) == key
  }

  /** Keys of the matched items of a script, in order, repeats included. */
  ghost function OfferedKeys(script: seq<Action>): seq<string> {
    if script == [] then []
    else
      var a := script[|script| - 1];
      OfferedKeys(script[..|script| - 1]) + (if a.Offer? && a.uids != [] then [ChildKey(a.item)] else [])
  }

  /** All parent UIDs offered for one child, in order, repeats included. */
  ghost function UidsOf(script: seq<Action>, key: string): seq<string> {
    if script == [] then []
    else
      var a := script[|script| - 1];
      UidsOf(script[..|script| - 1], key) + (if Offered(a, key) then a.uids else [])
  }

  /** The matches are the offered items grouped by child: one per key, parents deduplicated. */
  ghost predicate Grouped(ctx: Context, entries: seq<Entry>, script: seq<Action>) {
    && Keys(entries) == Dedup(OfferedKeys(script))
    && forall i :: 0 <= i < |entries| ==> Collects(ctx, entries[i], script)
  }

  /** One entry holds all that a script offers for its child. */
  ghost predicate Collects(ctx: Context, e: Entry, script: seq<Action>) {
    e.parentUIDs == Dedup(UidsOf(script, e.key)) && Rendered(ctx, e, script)
  }

  /** The items of a script, matched or not. */
  ghost function ItemsOf(script: seq<Action>): seq<Item> {
    if script == [] then []
    else
      var a := script[|script| - 1];
      ItemsOf(script[..|script| - 1]) + (if a.Offer? then [a.item] else [])
  }

  ghost predicate Rendered(ctx: Context, e: Entry, script: seq<Action>) {
    exists item :: item in ItemsOf(script) && ChildKey(item) == e.key && ctx.render(item) == Some(e.raw)
  }

  lemma {:induction false} MergeFits(ctx: Context, have: seq<string>, remaining: int, uids: seq<string>)
    requires Merge(ctx, have, remaining, uids).fits
    ensures Merge(ctx, have, remaining, uids).uids == AppendAll(have, uids)
    decreases |uids|
  {
    if uids != [] {
      if uids[0] in have { MergeFits(ctx, have, remaining, uids[1..]); }
      else { MergeFits(ctx, have + [uids[0]], remaining - UidCost(ctx, uids[0]), uids[1..]); }
    }
  }

  lemma {:induction false} NotOffered(script: seq<Action>, key: string)
    requires key !in OfferedKeys(script)
    ensures UidsOf(script, key) == []
    decreases |script|
  {
    if script != [] { NotOffered(script[..|script| - 1], key); }
  }

  lemma RenderedLonger(ctx: Context, e: Entry, script: seq<Action>, a: Action)
    ensures ItemsOf(script + [a]) == if a.Offer? then ItemsOf(script) + [a.item] else ItemsOf(script)
    ensures Rendered(ctx, e, script) ==> Rendered(ctx, e, script + [a])
  {
  }

  lemma UidsOfSnoc(script: seq<Action>, a: Action, key: string)
    ensures UidsOf(script + [a], key) == if Offered(a, key) then UidsOf(script, key) + a.uids else UidsOf(script, key)
  {
  }

  lemma OfferedKeysSnoc(script: seq<Action>, a: Action)
    ensures OfferedKeys(script + [a]) ==
            if a.Offer? && a.uids != [] then OfferedKeys(script) + [ChildKey(a.item)] else OfferedKeys(script)
    ensures Dedup(OfferedKeys(script + [a])) ==
            if a.Offer? && a.uids != [] then Append(Dedup(OfferedKeys(script)), ChildKey(a.item)) else Dedup(OfferedKeys(script))
  {
    assert (script + [a])[..|script|] == script;
    if a.Offer? { AppendAllSplit([], OfferedKeys(script), [ChildKey(a.item)]); }
  }

  /** What a successful step makes of the matches, budgets aside. */
  ghost predicate Takes(ctx: Context, entries: seq<Entry>, a: Action, next: seq<Entry>) {
    if !a.Offer? || a.uids == [] then next == entries
    else
      var key := ChildKey(a.item);
      var at := FirstIndex(Keys(entries), key);
      if at < |entries| then
        next == entries[at := entries[at].(parentUIDs := AppendAll(entries[at].parentUIDs, a.uids))]
      else
        ctx.render(a.item).Some? && next == entries + [Entry(key, Dedup(a.uids), ctx.render(a.item).value)]
  }

  lemma StepTakes(ctx: Context, s: State, a: Action)
    requires Step(ctx, s, a).outcome == Done
    ensures Takes(ctx, s.entries, a, Step(ctx, s, a).state.entries)
  {
    if a.Offer? && a.uids != [] {
      var at := FirstIndex(Keys(s.entries), ChildKey(a.item));
      if at < |s.entries| { MergeFits(ctx, s.entries[at].parentUIDs, s.remaining, a.uids); }
    }
  }

  lemma GroupedStep(ctx: Context, entries: seq<Entry>, script: seq<Action>, a: Action, next: seq<Entry>)
    requires Grouped(ctx, entries, script)
    requires Takes(ctx, entries, a, next)
    ensures Grouped(ctx, next, script + [a])
  {
    if !a.Offer? || a.uids == [] {
      GroupedIdle(ctx, entries, script, a);
    } else {
      var at := FirstIndex(Keys(entries), ChildKey(a.item));
      if at < |entries| {
        GroupedKnown(ctx, entries, script, a, at);
      } else {
        GroupedNew(ctx, entries, script, a, next[at]);
      }
    }
  }

  lemma GroupedIdle(ctx: Context, entries: seq<Entry>, script: seq<Action>, a: Action)
    requires Grouped(ctx, entries, script)
    requires !a.Offer? || a.uids == []
    ensures Grouped(ctx, entries, script + [a])
  {
    OfferedKeysSnoc(script, a);
    forall i | 0 <= i < |entries|
      ensures Collects(ctx, entries[i], script + [a])
    {
      OthersUntouched(ctx, entries[i], script, a);
    }
  }

  lemma KeysUpdate(entries: seq<Entry>, at: nat, e: Entry)
    requires at < |entries| && e.key == entries[at].key
    ensures Keys(entries[at := e]) == Keys(entries)
  {
  }

  lemma KeysSnoc(entries: seq<Entry>, e: Entry)
    ensures Keys(entries + [e]) == Keys(entries) + [e.key]
  {
  }

  lemma GroupedKnown(ctx: Context, entries: seq<Entry>, script: seq<Action>, a: Action, at: nat)
    requires Grouped(ctx, entries, script)
    requires a.Offer? && a.uids != [] && at < |entries| && entries[at].key == ChildKey(a.item)
    ensures Grouped(ctx, entries[at := entries[at].(parentUIDs := AppendAll(entries[at].parentUIDs, a.uids))], script + [a])
  {
    var e := entries[at].(parentUIDs := AppendAll(entries[at].parentUIDs, a.uids));
    var next := entries[at := e];
    OfferedKeysSnoc(script, a);
    AppendAllMeaning([], OfferedKeys(script));
    KeysUpdate(entries, at, e);
    assert Keys(entries)[at] in Dedup(OfferedKeys(script));
    forall i | 0 <= i < |next|
      ensures Collects(ctx, next[i], script + [a])
    {
      if i == at {
        AnotherOffer(ctx, entries[at], script, a);
      } else {
        assert Keys(entries)[i] != Keys(entries)[at];
        OthersUntouched(ctx, entries[i], script, a);
      }
    }
  }

  lemma AnotherOffer(ctx: Context, e: Entry, script: seq<Action>, a: Action)
    requires a.Offer? && a.uids != [] && ChildKey(a.item) == e.key
    requires Collects(ctx, e, script)
    ensures Collects(ctx, e.(parentUIDs := AppendAll(e.parentUIDs, a.uids)), script + [a])
  {
    UidsOfSnoc(script, a, e.key);
    AppendAllSplit([], UidsOf(script, e.key), a.uids);
    RenderedLonger(ctx, e, script, a);
  }

  /** Offering one child leaves what is known of another as it was. */
  lemma OthersUntouched(ctx: Context, e: Entry, script: seq<Action>, a: Action)
    requires !Offered(a, e.key)
    requires Collects(ctx, e, script)
    ensures Collects(ctx, e, script + [a])
  {
    UidsOfSnoc(script, a, e.key);
    RenderedLonger(ctx, e, script, a);
  }

  lemma FirstOffer(ctx: Context, e: Entry, script: seq<Action>, a: Action)
    requires a.Offer? && a.uids != [] && e.key == ChildKey(a.item) && e.key !in OfferedKeys(script)
    requires e.parentUIDs == Dedup(a.uids) && ctx.render(a.item) == Some(e.raw)
    ensures Collects(ctx, e, script + [a])
  {
    NotOffered(script, e.key);
    UidsOfSnoc(script, a, e.key);
    assert UidsOf(script + [a], e.key) == a.uids;
    RenderedLonger(ctx, e, script, a);
    assert a.item in ItemsOf(script + [a]);
  }

  lemma NewKey(entries: seq<Entry>, script: seq<Action>, a: Action, e: Entry)
    requires Keys(entries) == Dedup(OfferedKeys(script))
    requires a.Offer? && a.uids != [] && e.key == ChildKey(a.item) && e.key !in Keys(entries)
    ensures Keys(entries + [e]) == Dedup(OfferedKeys(script + [a]))
    ensures e.key !in OfferedKeys(script)
  {
    OfferedKeysSnoc(script, a);
    AppendAllMembers([], OfferedKeys(script));
    KeysSnoc(entries, e);
  }

  lemma GroupedNew(ctx: Context, entries: seq<Entry>, script: seq<Action>, a: Action, e: Entry)
    requires Grouped(ctx, entries, script)
    requires a.Offer? && a.uids != [] && ChildKey(a.item) !in Keys(entries)
    requires e.key == ChildKey(a.item) && e.parentUIDs == Dedup(a.uids) && ctx.render(a.item) == Some(e.raw)
    ensures Grouped(ctx, entries + [e], script + [a])
  {
    NewKey(entries, script, a, e);
    FirstOffer(ctx, e, script, a);
    forall i | 0 <= i < |entries|
      ensures Collects(ctx, entries[i], script + [a])
    {
      assert Keys(entries)[i] != e.key;
      OthersUntouched(ctx, entries[i], script, a);
    }
  }

  /** The stateful accumulator refines grouping: a completed run is the group-by of its script. */
  lemma {:induction false} RunGroups(ctx: Context, s: State, script: seq<Action>)
    requires s.entries == []
    requires Run(ctx, s, script).outcome == Done
    ensures Grouped(ctx, Run(ctx, s, script).state.entries, script)
    decreases |script|
  {
    if script != [] {
      var init, a := script[..|script| - 1], script[|script| - 1];
      assert script == init + [a];
      RunAppend(ctx, s, init, [a]);
      RunGroups(ctx, s, init);
      var t := Run(ctx, s, init).state;
      StepTakes(ctx, t, a);
      GroupedStep(ctx, t.entries, init, a, Step(ctx, t, a).state.entries);
    }
  }

  // ----- listings ------------------------------------------------------------------------------

  /** The whole listing from a continue token on, if it ends without error within `fuel` pages. */
  function Listing(server: Server, child: ChildKind, ns: string, selector: string, cont: string, fuel: nat): Option<seq<Item>>
    decreases fuel
  {
    if fuel == 0 then None
    else match server(Request(child, ns, selector, cont))
      case ListFailed(_) => None
      case Page(items, next) =>
        if next == "" then Some(items)
        else match Listing(server, child, ns, selector, next, fuel - 1)
          case None => None
          case Some(more) => Some(items + more)
  }

  /**
   The API server serves one fixed set of objects: a completed listing of a namespace holds
   exactly the objects of that namespace its selector selects, and no two of them share a key.
   */
  ghost predicate Faithful(server: Server, child: ChildKind, cluster: set<Item>, selects: (string, Item) -> bool) {
    && (forall a, b :: a in cluster && b in cluster && ChildKey(a) == ChildKey(b) ==> a == b)
    && (forall item :: item in cluster ==> selects("", item))
    && forall ns, selector, fuel: nat, item ::
         ns != "" && Listing(server, child, ns, selector, "", fuel).Some? ==>
         (item in Listing(server, child, ns, selector, "", fuel).value <==>
          item in cluster && item.namespace == ns && selects(selector, item))
  }

  /** The parent UIDs one walk offers for one object, repeats included. */
  ghost function ItemUids(w: Walk, items: seq<Item>, key: string): seq<string> {
    if items == [] then []
    else
      var item := items[|items| - 1];
      ItemUids(w, items[..|items| - 1], key) + (if ChildKey(item) == key then Matched(w, item) else [])
  }

  lemma {:induction false} UidsOfAppend(a: seq<Action>, b: seq<Action>, key: string)
    ensures UidsOf(a + b, key) == UidsOf(a, key) + UidsOf(b, key)
    decreases |b|
  {
    if b == [] {
      assert a + b == a;
    } else {
      assert (a + b)[..|a + b| - 1] == a + b[..|b| - 1];
      UidsOfAppend(a, b[..|b| - 1], key);
    }
  }

  lemma {:induction false} OffersUids(w: Walk, items: seq<Item>, key: string)
    ensures UidsOf(Offers(w, items), key) == ItemUids(w, items, key)
    decreases |items|
  {
    if items != [] {
      var init := items[..|items| - 1];
      assert Offers(w, items)[..|items| - 1] == Offers(w, init);
      OffersUids(w, init, key);
    }
  }

  lemma {:induction false} ItemUidsAppend(w: Walk, a: seq<Item>, b: seq<Item>, key: string)
    ensures ItemUids(w, a + b, key) == ItemUids(w, a, key) + ItemUids(w, b, key)
    decreases |b|
  {
    if b == [] {
      assert a + b == a;
    } else {
      assert (a + b)[..|a + b| - 1] == a + b[..|b| - 1];
      ItemUidsAppend(w, a, b[..|b| - 1], key);
    }
  }

  /** A completed walk got a page, and completed what followed it. */
  lemma PageCompletes(ctx: Context, s: State, server: Server, child: ChildKind, w: Walk, cont: string, fuel: nat) returns (next: string, t: State)
    requires Run(ctx, s, WalkScript(server, child, w, cont, fuel)).outcome == Done
    ensures fuel > 0
    ensures var reply := server(Request(child, w.namespace, w.selector, cont)); reply.Page? && next == reply.next
    ensures next != "" ==> Run(ctx, t, WalkScript(server, child, w, next, fuel - 1)).outcome == Done
  {
    var request := Request(child, w.namespace, w.selector, cont);
    RunPage(ctx, s, server, child, w, cont, fuel);
    next := server(request).next;
    t := Run(ctx, Issue(s, request).state, Offers(w, server(request).items)).state;
  }

  /** A completed walk has read its whole listing. */
  lemma {:induction false} WalkCompletes(ctx: Context, s: State, server: Server, child: ChildKind, w: Walk, cont: string, fuel: nat)
    requires Run(ctx, s, WalkScript(server, child, w, cont, fuel)).outcome == Done
    ensures Listing(server, child, w.namespace, w.selector, cont, fuel).Some?
    decreases fuel
  {
    var next, t := PageCompletes(ctx, s, server, child, w, cont, fuel);
    if next != "" { WalkCompletes(ctx, t, server, child, w, next, fuel - 1); }
  }

  datatype PageRead = PageRead(request: Request, items: seq<Item>)

  ghost function PagesScript(w: Walk, pages: seq<PageRead>): seq<Action> {
    if pages == [] then []
    else [Call(pages[0].request)] + (Offers(w, pages[0].items) + PagesScript(w, pages[1..]))
  }

  ghost function PagesItems(pages: seq<PageRead>): seq<Item> {
    if pages == [] then [] else pages[0].items + PagesItems(pages[1..])
  }

  /** A walk whose listing ends is a sequence of pages: they give both its script and its listing. */
  lemma {:induction false} ReadPages(server: Server, child: ChildKind, w: Walk, cont: string, fuel: nat) returns (pages: seq<PageRead>)
    requires Listing(server, child, w.namespace, w.selector, cont, fuel).Some?
    ensures WalkScript(server, child, w, cont, fuel) == PagesScript(w, pages)
    ensures Listing(server, child, w.namespace, w.selector, cont, fuel).value == PagesItems(pages)
    decreases fuel
  {
    var request := Request(child, w.namespace, w.selector, cont);
    var Page(items, next) := server(request);
    var more := [];
    if next != "" { more := ReadPages(server, child, w, next, fuel - 1); }
    pages := [PageRead(request, items)] + more;
    assert pages[1..] == more;
    assert [Call(request)] + Offers(w, items) + PagesScript(w, more) == [Call(request)] + (Offers(w, items) + PagesScript(w, more));
  }

  /** Pages offer what is in them, as often as it is there. */
  lemma {:induction false} UidsOfPages(w: Walk, pages: seq<PageRead>, key: string)
    ensures UidsOf(PagesScript(w, pages), key) == ItemUids(w, PagesItems(pages), key)
    decreases |pages|
  {
    if pages != [] {
      var items, call, rest := pages[0].items, [Call(pages[0].request)], PagesScript(w, pages[1..]);
      UidsOfPages(w, pages[1..], key);
      UidsOfAppend(call, Offers(w, items) + rest, key);
      UidsOfAppend(Offers(w, items), rest, key);
      OffersUids(w, items, key);
      assert UidsOf(call, key) == [] by { assert call[..0] == []; assert UidsOf(call, key) == UidsOf(call[..0], key) + []; }
      ItemUidsAppend(w, items, PagesItems(pages[1..]), key);
    }
  }

  /** However often one object occurs in a listing, its parents are attributed once. */
  lemma {:induction false} RepeatsCollapse(w: Walk, items: seq<Item>, item: Item, have: seq<string>)
    requires forall other :: other in items && ChildKey(other) == ChildKey(item) ==> other == item
    ensures AppendAll(have, ItemUids(w, items, ChildKey(item))) ==
            if item in items then AppendAll(have, Matched(w, item)) else have
    decreases |items|
  {
    if items != [] {
      var init, last := items[..|items| - 1], items[|items| - 1];
      assert items == init + [last];
      RepeatsCollapse(w, init, item, have);
      if last == item {
        var m := Matched(w, item);
        AppendAllSplit(have, ItemUids(w, init, ChildKey(item)), m);
        AppendAllMembers(have, m);
        AppendAllAbsorbs(AppendAll(have, m), m);
      } else {
        assert ChildKey(last) != ChildKey(item);
        assert ItemUids(w, items, ChildKey(item)) == ItemUids(w, init, ChildKey(item));
      }
    }
  }

  // ----- attribution -----------------------------------------------------------------------------

  /** The parents a plan attributes an object to, by the plan alone. */
  ghost function Attributed(plan: seq<Walk>, selects: (string, Item) -> bool, item: Item): seq<string> {
    if plan == [] then []
    else
      var w := plan[0];
      (if w.namespace == item.namespace && selects(w.selector, item) then Matched(w, item) else [])
      + Attributed(plan[1..], selects, item)
  }

  lemma {:induction false} PlanAttributes(ctx: Context, s: State, server: Server, child: ChildKind, plan: seq<Walk>, fuel: nat,
                                          cluster: set<Item>, selects: (string, Item) -> bool, item: Item, have: seq<string>)
    requires Faithful(server, child, cluster, selects) && item in cluster
    requires forall w :: w in plan ==> w.namespace != ""
    requires Run(ctx, s, PlanScript(server, child, plan, fuel)).outcome == Done
    ensures AppendAll(have, UidsOf(PlanScript(server, child, plan, fuel), ChildKey(item))) ==
            AppendAll(have, Attributed(plan, selects, item))
    decreases |plan|
  {
    if plan != [] {
      var w, key := plan[0], ChildKey(item);
      var a, b := WalkScript(server, child, w, "", fuel), PlanScript(server, child, plan[1..], fuel);
      RunAppend(ctx, s, a, b);
      UidsOfAppend(a, b, key);
      WalkCompletes(ctx, s, server, child, w, "", fuel);
      var pages := ReadPages(server, child, w, "", fuel);
      UidsOfPages(w, pages, key);
      var items := Listing(server, child, w.namespace, w.selector, "", fuel).value;
      RepeatsCollapse(w, items, item, have);
      AppendAllSplit(have, UidsOf(a, key), UidsOf(b, key));
      var hit := if item in items then Matched(w, item) else [];
      PlanAttributes(ctx, Run(ctx, s, a).state, server, child, plan[1..], fuel, cluster, selects, item, AppendAll(have, hit));
      AppendAllSplit(have, hit, Attributed(plan[1..], selects, item));
    }
  }

  lemma {:induction false} ItemsOfAppend(a: seq<Action>, b: seq<Action>)
    ensures ItemsOf(a + b) == ItemsOf(a) + ItemsOf(b)
    decreases |b|
  {
    if b == [] {
      assert a + b == a;
    } else {
      assert (a + b)[..|a + b| - 1] == a + b[..|b| - 1];
      ItemsOfAppend(a, b[..|b| - 1]);
    }
  }

  lemma {:induction false} ItemsOfOffers(w: Walk, items: seq<Item>)
    ensures ItemsOf(Offers(w, items)) == items
    decreases |items|
  {
    if items != [] {
      assert Offers(w, items)[..|items| - 1] == Offers(w, items[..|items| - 1]);
      ItemsOfOffers(w, items[..|items| - 1]);
    }
  }

  lemma {:induction false} ItemsOfPages(w: Walk, pages: seq<PageRead>)
    ensures ItemsOf(PagesScript(w, pages)) == PagesItems(pages)
    decreases |pages|
  {
    if pages != [] {
      var items, call, rest := pages[0].items, [Call(pages[0].request)], PagesScript(w, pages[1..]);
      ItemsOfPages(w, pages[1..]);
      ItemsOfAppend(call, Offers(w, items) + rest);
      ItemsOfAppend(Offers(w, items), rest);
      ItemsOfOffers(w, items);
      assert ItemsOf(call) == [] by { assert call[..0] == []; assert ItemsOf(call) == ItemsOf(call[..0]) + []; }
    }
  }

  lemma {:induction false} PlanOffersServed(ctx: Context, s: State, server: Server, child: ChildKind, plan: seq<Walk>, fuel: nat,
                                            cluster: set<Item>, selects: (string, Item) -> bool, item: Item)
    requires Faithful(server, child, cluster, selects)
    requires forall w :: w in plan ==> w.namespace != ""
    requires Run(ctx, s, PlanScript(server, child, plan, fuel)).outcome == Done
    requires item in ItemsOf(PlanScript(server, child, plan, fuel))
    ensures item in cluster
    decreases |plan|
  {
    var first, rest := WalkScript(server, child, plan[0], "", fuel), PlanScript(server, child, plan[1..], fuel);
    RunAppend(ctx, s, first, rest);
    WalkCompletes(ctx, s, server, child, plan[0], "", fuel);
    ItemsOfAppend(first, rest);
    var pages := ReadPages(server, child, plan[0], "", fuel);
    ItemsOfPages(plan[0], pages);
    if item !in ItemsOf(first) {
      PlanOffersServed(ctx, Run(ctx, s, first).state, server, child, plan[1..], fuel, cluster, selects, item);
    }
  }

  lemma {:induction false} OfferedKeysMeaning(script: seq<Action>, key: string)
    ensures key in OfferedKeys(script) <==> UidsOf(script, key) != []
    decreases |script|
  {
    if script != [] {
      OfferedKeysMeaning(script[..|script| - 1], key);
    }
  }

  /** An entry is one object of the cluster, with exactly the parents the plan attributes it to. */
  ghost predicate Describes(ctx: Context, e: Entry, item: Item, plan: seq<Walk>, selects: (string, Item) -> bool) {
    && ChildKey(item) == e.key
    && e.parentUIDs == Dedup(Attributed(plan, selects, item))
    && ctx.render(item) == Some(e.raw)
  }

  /** The matches are exactly the objects the plan attributes to someone, each once. */
  ghost predicate Exact(ctx: Context, entries: seq<Entry>, plan: seq<Walk>, cluster: set<Item>, selects: (string, Item) -> bool) {
    && Distinct(Keys(entries))
    && (forall item :: item in cluster ==>
          (ChildKey(item) in Keys(entries) <==> Attributed(plan, selects, item) != []))
    && forall i :: 0 <= i < |entries| ==> IsDescribed(ctx, entries[i], plan, cluster, selects)
  }

  ghost predicate IsDescribed(ctx: Context, e: Entry, plan: seq<Walk>, cluster: set<Item>, selects: (string, Item) -> bool) {
    exists item :: item in cluster && Describes(ctx, e, item, plan, selects)
  }

  lemma RunExact(ctx: Context, s: State, server: Server, child: ChildKind, plan: seq<Walk>, fuel: nat, cluster: set<Item>,
                 selects: (string, Item) -> bool)
    requires Faithful(server, child, cluster, selects)
    requires forall w :: w in plan ==> w.namespace != ""
    requires s.entries == []
    requires Run(ctx, s, PlanScript(server, child, plan, fuel)).outcome == Done
    ensures Exact(ctx, Run(ctx, s, PlanScript(server, child, plan, fuel)).state.entries, plan, cluster, selects)
  {
    var script := PlanScript(server, child, plan, fuel);
    var entries := Run(ctx, s, script).state.entries;
    RunGroups(ctx, s, script);
    AppendAllMeaning([], OfferedKeys(script));
    forall item | item in cluster
      ensures ChildKey(item) in Keys(entries) <==> Attributed(plan, selects, item) != []
    {
      OfferedKeysMeaning(script, ChildKey(item));
      PlanAttributes(ctx, s, server, child, plan, fuel, cluster, selects, item, []);
      DedupEmpty(UidsOf(script, ChildKey(item)));
      DedupEmpty(Attributed(plan, selects, item));
    }
    forall i | 0 <= i < |entries|
      ensures IsDescribed(ctx, entries[i], plan, cluster, selects)
    {
      var item := EntryExact(ctx, s, server, child, plan, fuel, cluster, selects, entries[i]);
    }
  }

  lemma EntryExact(ctx: Context, s: State, server: Server, child: ChildKind, plan: seq<Walk>, fuel: nat, cluster: set<Item>,
                   selects: (string, Item) -> bool, e: Entry) returns (item: Item)
    requires Faithful(server, child, cluster, selects)
    requires forall w :: w in plan ==> w.namespace != ""
    requires Run(ctx, s, PlanScript(server, child, plan, fuel)).outcome == Done
    requires Collects(ctx, e, PlanScript(server, child, plan, fuel))
    ensures item in cluster && Describes(ctx, e, item, plan, selects)
  {
    var script := PlanScript(server, child, plan, fuel);
    item :| item in ItemsOf(script) && ChildKey(item) == e.key && ctx.render(item) == Some(e.raw);
    PlanOffersServed(ctx, s, server, child, plan, fuel, cluster, selects, item);
    PlanAttributes(ctx, s, server, child, plan, fuel, cluster, selects, item, []);
  }

  lemma DedupEmpty(xs: seq<string>)
    ensures Dedup(xs) == [] <==> xs == []
  {
    AppendAllMembers([], xs);
    if xs != [] { assert xs[0] in Dedup(xs); }
  }
}
