/** Exactly when a run is cut short: it completes if and only if its budgets cover what it needs. */
module ResourceTreeLimits {
  import opened Sequences
  import opened ResourceTree
  import opened ResourceTreeBudgets
  import opened ResourceTreeQueries
  import opened ResourceTreeTheorems

  // ----- what a completed run has used ------------------------------------------------------------------------

  /** A use of nothing needs nothing; any other use must be covered. */
  predicate Covers(have: int, used: int) {
    used == 0 || used <= have
  }

  /** The budgets of `s` cover what the run from `t` to `u` used. */
  ghost predicate Enough(s: State, t: State, u: State) {
    && (|u.entries| == |t.entries| || |u.entries| <= s.limit)
    && Covers(s.remaining, t.remaining - u.remaining)
    && Covers(s.lists, t.lists - u.lists)
    && Covers(s.conts, t.conts - u.conts)
  }

  lemma {:induction false} MergeFitsIff(ctx: Context, have: seq<string>, r: int, q: int, uids: seq<string>)
    requires r <= q && Merge(ctx, have, q, uids).fits
    ensures var m, n := Merge(ctx, have, r, uids), Merge(ctx, have, q, uids);
            && n.remaining <= q
            && (m.fits <==> Covers(r, q - n.remaining))
            && (m.fits ==> r - m.remaining == q - n.remaining && m.uids == n.uids)
    decreases |uids|
  {
    if uids != [] {
      if uids[0] in have { MergeFitsIff(ctx, have, r, q, uids[1..]); }
      else {
        var cost := UidCost(ctx, uids[0]);
        MergeSpends(ctx, have + [uids[0]], q - cost, uids[1..]);
        if cost <= r { MergeFitsIff(ctx, have + [uids[0]], r - cost, q - cost, uids[1..]); }
      }
    }
  }

  lemma DedupKeepsSome(uids: seq<string>)
    requires uids != []
    ensures Dedup(uids) != []
  {
    AppendAllMembers([], uids);
    assert uids[0] in uids;
  }

  lemma {:induction false} UidsCostPositive(ctx: Context, uids: seq<string>)
    requires uids != []
    ensures UidsCost(ctx, uids) > 0
  {
  }

  /** One step completes under the tighter budgets exactly when they cover what it uses. */
  lemma StepDoneIff(ctx: Context, s: State, t: State, a: Action)
    requires Tighter(s, t) && Step(ctx, t, a).outcome == Done
    ensures var u := Step(ctx, t, a).state;
            && (Step(ctx, s, a).outcome == Done <==> Enough(s, t, u))
            && (Step(ctx, s, a).outcome == Done ==>
                  var r := Step(ctx, s, a).state;
                  && s.remaining - r.remaining == t.remaining - u.remaining && s.lists - r.lists == t.lists - u.lists
                  && s.conts - r.conts == t.conts - u.conts && s.limit == r.limit)
  {
    if a.Offer? && a.uids != [] {
      var at := FirstIndex(Keys(s.entries), ChildKey(a.item));
      if at < |s.entries| {
        MergeFitsIff(ctx, s.entries[at].parentUIDs, s.remaining, t.remaining, a.uids);
      } else {
        DedupKeepsSome(a.uids);
        UidsCostPositive(ctx, Dedup(a.uids));
      }
    }
  }

  /** A run completes under tighter budgets exactly when they cover all it uses, and then it does the same. */
  lemma {:induction false} RunDoneIff(ctx: Context, s: State, t: State, script: seq<Action>)
    requires Tighter(s, t) && Run(ctx, t, script).outcome == Done
    ensures Run(ctx, s, script).outcome == Done <==> Enough(s, t, Run(ctx, t, script).state)
    decreases |script|
  {
    if script != [] {
      var a := script[0];
      var q, r := Step(ctx, t, a), Step(ctx, s, a);
      StepDoneIff(ctx, s, t, a);
      StepTighter(ctx, s, t, a);
      StepUses(ctx, t, a);
      RunUses(ctx, q.state, script[1..]);
      if r.outcome == Done {
        RunDoneIff(ctx, r.state, q.state, script[1..]);
      }
    }
  }

  ghost predicate Uses(t: State, u: State) {
    |u.entries| >= |t.entries| && u.remaining <= t.remaining && u.lists <= t.lists && u.conts <= t.conts
  }

  lemma StepUses(ctx: Context, t: State, a: Action)
    ensures Uses(t, Step(ctx, t, a).state)
  {
    StepSpends(ctx, t, a);
    StepGrows(ctx, t, a);
  }

  lemma RunUses(ctx: Context, t: State, script: seq<Action>)
    ensures Uses(t, Run(ctx, t, script).state)
  {
    RunSpends(ctx, t, script);
    RunGrows(ctx, t, script);
  }

  // ----- on queries ----------------------------------------------------------------------------------------------

  lemma {:induction false} RunCalls(ctx: Context, s: State, script: seq<Action>)
    requires Run(ctx, s, script).outcome == Done
    ensures var u := Run(ctx, s, script).state;
            |u.calls| - |s.calls| == s.lists - u.lists && Continued(u.calls) - Continued(s.calls) == s.conts - u.conts
    decreases |script|
  {
    if script != [] {
      var r := Step(ctx, s, script[0]);
      if script[0].Call? { assert (s.calls + [script[0].request])[..|s.calls|] == s.calls; }
      RunCalls(ctx, r.state, script[1..]);
    }
  }

  /**
   Truncation is exact: where a query completes under some limits, it completes under lower ones if
   and only if they cover the matches, the bytes, the LIST calls and the continue tokens it takes.
   */
  lemma CompletesIff(h: Handler, q: Query, plan: seq<Walk>, l: Limits, m: Limits)
    requires AtMost(l, m) && Execute(h, q, plan, m).outcome == Done
    ensures var u := Execute(h, q, plan, m).state;
            Execute(h, q, plan, l).outcome == Done <==>
              && (u.entries == [] || |u.entries| <= l.matches)
              && Covers(l.bytes, MatchesCost(h, Strip(u.entries)))
              && Covers(l.lists, |u.calls|)
              && Covers(l.pages, Continued(u.calls))
  {
    var ctx, script := ContextOf(h, q), PlanScript(h.server, q.child, plan, Fuel(m.lists));
    RunFuel(ctx, Start(l), h.server, q.child, plan, Fuel(l.lists), Fuel(m.lists));
    RunDoneIff(ctx, Start(l), Start(m), script);
    ExecuteLedger(h, q, plan, m);
    StripCost(h, q, Execute(h, q, plan, m).state.entries);
    RunCalls(ctx, Start(m), script);
  }

  // ----- and there are limits under which it completes --------------------------------------------------------------

  /** Every page asked for is served, and every object offered can be marshalled. */
  ghost predicate Smooth(ctx: Context, script: seq<Action>) {
    forall i :: 0 <= i < |script| ==> !script[i].Fail? && (script[i].Offer? ==> ctx.render(script[i].item).Some?)
  }

  /** Bytes that are enough for one action. */
  function ActionCost(ctx: Context, a: Action): nat {
    if a.Offer? && ctx.render(a.item).Some? then |ctx.render(a.item).value| + UidsCost(ctx, Dedup(a.uids)) + UidsCost(ctx, a.uids) else 0
  }

  function ScriptCost(ctx: Context, script: seq<Action>): nat {
    if script == [] then 0 else ActionCost(ctx, script[0]) + ScriptCost(ctx, script[1..])
  }

  lemma {:induction false} UidsCostFirst(ctx: Context, uids: seq<string>)
    requires uids != []
    ensures UidsCost(ctx, uids) == UidCost(ctx, uids[0]) + UidsCost(ctx, uids[1..])
    decreases |uids|
  {
    if |uids| > 1 {
      var n := |uids| - 1;
      assert uids[..n][1..] == uids[1..][..n - 1] && uids[1..][n - 1] == uids[n];
      UidsCostFirst(ctx, uids[..n]);
    }
  }

  lemma {:induction false} MergeEnough(ctx: Context, have: seq<string>, remaining: int, uids: seq<string>)
    requires remaining >= UidsCost(ctx, uids)
    ensures var m := Merge(ctx, have, remaining, uids); m.fits && m.remaining >= remaining - UidsCost(ctx, uids)
    decreases |uids|
  {
    if uids != [] {
      UidsCostFirst(ctx, uids);
      if uids[0] in have { MergeEnough(ctx, have, remaining, uids[1..]); }
      else { MergeEnough(ctx, have + [uids[0]], remaining - UidCost(ctx, uids[0]), uids[1..]); }
    }
  }

  lemma StepEnough(ctx: Context, s: State, a: Action)
    requires !a.Fail? && (a.Offer? ==> ctx.render(a.item).Some?)
    requires s.limit > |s.entries| && s.remaining >= ActionCost(ctx, a) && s.lists > 0 && s.conts > 0
    ensures var r := Step(ctx, s, a);
            && r.outcome == Done && r.state.remaining >= s.remaining - ActionCost(ctx, a) && r.state.limit == s.limit
            && |r.state.entries| <= |s.entries| + 1 && r.state.lists >= s.lists - 1 && r.state.conts >= s.conts - 1
  {
    if a.Offer? {
      var at := FirstIndex(Keys(s.entries), ChildKey(a.item));
      if at < |s.entries| { MergeEnough(ctx, s.entries[at].parentUIDs, s.remaining, a.uids); }
    }
  }

  lemma {:induction false} RunEnough(ctx: Context, s: State, script: seq<Action>)
    requires Smooth(ctx, script) && s.limit >= |s.entries| + |script| && s.remaining >= ScriptCost(ctx, script)
    requires s.lists >= |script| && s.conts >= |script|
    ensures Run(ctx, s, script).outcome == Done
    decreases |script|
  {
    if script != [] {
      StepEnough(ctx, s, script[0]);
      RunEnough(ctx, Step(ctx, s, script[0]).state, script[1..]);
    }
  }

  ghost predicate Failless(script: seq<Action>) {
    forall i :: 0 <= i < |script| ==> !script[i].Fail?
  }

  lemma FaillessSplit(a: seq<Action>, b: seq<Action>)
    requires Failless(a + b)
    ensures Failless(a) && Failless(b)
  {
    assert forall i :: 0 <= i < |a| ==> (a + b)[i] == a[i];
    assert forall i :: 0 <= i < |b| ==> (a + b)[|a| + i] == b[i];
  }

  lemma CutFails(server: Server, child: ChildKind, w: Walk, cont: string, f: nat)
    requires f == 0 || server(Request(child, w.namespace, w.selector, cont)).ListFailed?
    ensures !Failless(WalkScript(server, child, w, cont, f))
  {
    assert WalkScript(server, child, w, cont, f)[1].Fail?;
  }

  lemma {:induction false} WalkScriptSettles(server: Server, child: ChildKind, w: Walk, cont: string, f: nat, g: nat)
    requires f <= g && Failless(WalkScript(server, child, w, cont, f))
    ensures WalkScript(server, child, w, cont, g) == WalkScript(server, child, w, cont, f)
    decreases f
  {
    var request := Request(child, w.namespace, w.selector, cont);
    if f == 0 || server(request).ListFailed? {
      CutFails(server, child, w, cont, f);
    } else if server(request).next != "" {
      FaillessSplit([Call(request)] + Offers(w, server(request).items), WalkScript(server, child, w, server(request).next, f - 1));
      WalkScriptSettles(server, child, w, server(request).next, f - 1, g - 1);
    }
  }

  lemma {:induction false} PlanScriptSettles(server: Server, child: ChildKind, plan: seq<Walk>, f: nat, g: nat)
    requires f <= g && Failless(PlanScript(server, child, plan, f))
    ensures PlanScript(server, child, plan, g) == PlanScript(server, child, plan, f)
    decreases |plan|
  {
    if plan != [] {
      FaillessSplit(WalkScript(server, child, plan[0], "", f), PlanScript(server, child, plan[1..], f));
      WalkScriptSettles(server, child, plan[0], "", f, g);
      PlanScriptSettles(server, child, plan[1..], f, g);
    }
  }

  /** Where the server serves every page asked for, and these end, some limits let the query complete. */
  lemma SomeLimitsSuffice(h: Handler, q: Query, plan: seq<Walk>, fuel: nat) returns (m: Limits)
    requires Smooth(ContextOf(h, q), PlanScript(h.server, q.child, plan, fuel))
    ensures Execute(h, q, plan, m).outcome == Done
  {
    var ctx, script := ContextOf(h, q), PlanScript(h.server, q.child, plan, fuel);
    m := Limits(|script|, ScriptCost(ctx, script), fuel + |script|, |script|);
    PlanScriptSettles(h.server, q.child, plan, fuel, m.lists);
    RunEnough(ctx, Start(m), script);
  }
}
