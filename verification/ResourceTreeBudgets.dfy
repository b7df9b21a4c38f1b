/** What the three budgets guarantee about every run: an exact byte ledger, bounded work, honest truncation. */
module ResourceTreeBudgets {
  import opened Sequences
  import opened ResourceTree

  // ----- the byte ledger -------------------------------------------------------------------

  lemma {:induction false} EntriesCostUpdate(ctx: Context, entries: seq<Entry>, at: nat, e: Entry)
    requires at < |entries|
    ensures EntriesCost(ctx, entries[at := e]) == EntriesCost(ctx, entries) - EntryCost(ctx, entries[at]) + EntryCost(ctx, e)
    decreases |entries|
  {
    var last := |entries| - 1;
    if at < last {
      assert entries[at := e][..last] == entries[..last][at := e];
      EntriesCostUpdate(ctx, entries[..last], at, e);
    } else {
      assert entries[at := e][..last] == entries[..last];
    }
  }

  lemma {:induction false} MergeLedger(ctx: Context, have: seq<string>, remaining: int, uids: seq<string>)
    ensures var m := Merge(ctx, have, remaining, uids);
            m.remaining + UidsCost(ctx, m.uids) == remaining + UidsCost(ctx, have)
    decreases |uids|
  {
    if uids != [] {
      if uids[0] in have { MergeLedger(ctx, have, remaining, uids[1..]); }
      else if UidCost(ctx, uids[0]) <= remaining {
        assert (have + [uids[0]])[..|have|] == have;
        MergeLedger(ctx, have + [uids[0]], remaining - UidCost(ctx, uids[0]), uids[1..]);
      }
    }
  }

  lemma EntriesCostSnoc(ctx: Context, entries: seq<Entry>, e: Entry)
    ensures EntriesCost(ctx, entries + [e]) == EntriesCost(ctx, entries) + EntryCost(ctx, e)
  {
  }

  lemma KnownLedger(ctx: Context, entries: seq<Entry>, remaining: int, at: nat, uids: seq<string>)
    requires at < |entries|
    ensures var m := Merge(ctx, entries[at].parentUIDs, remaining, uids);
            m.remaining + EntriesCost(ctx, entries[at := entries[at].(parentUIDs := m.uids)]) == remaining + EntriesCost(ctx, entries)
  {
    var m := Merge(ctx, entries[at].parentUIDs, remaining, uids);
    MergeLedger(ctx, entries[at].parentUIDs, remaining, uids);
    EntriesCostUpdate(ctx, entries, at, entries[at].(parentUIDs := m.uids));
  }

  lemma StepLedger(ctx: Context, s: State, a: Action)
    ensures var r := Step(ctx, s, a).state;
            r.remaining + EntriesCost(ctx, r.entries) == s.remaining + EntriesCost(ctx, s.entries)
  {
    if a.Offer? && a.uids != [] {
      var at := FirstIndex(Keys(s.entries), ChildKey(a.item));
      if at < |s.entries| {
        KnownLedger(ctx, s.entries, s.remaining, at, a.uids);
      } else if ctx.render(a.item).Some? {
        EntriesCostSnoc(ctx, s.entries, Entry(ChildKey(a.item), Dedup(a.uids), ctx.render(a.item).value));
      }
    }
  }

  /**
   Exact byte ledger: whatever a run does, and wherever it stops, the bytes it has left plus the
   bytes its matches cost stay constant.
   */
  lemma {:induction false} RunLedger(ctx: Context, s: State, script: seq<Action>)
    ensures var r := Run(ctx, s, script).state;
            r.remaining + EntriesCost(ctx, r.entries) == s.remaining + EntriesCost(ctx, s.entries)
    decreases |script|
  {
    if script != [] {
      StepLedger(ctx, s, script[0]);
      var r := Step(ctx, s, script[0]);
      if r.outcome == Done { RunLedger(ctx, r.state, script[1..]); }
    }
  }

  // ----- the byte ceiling ------------------------------------------------------------------

  /** The lowest a byte budget can be brought: nothing is left, or it had nothing to give. */
  function Floor(remaining: int): int {
    if remaining < 0 then remaining else 0
  }

  lemma {:induction false} MergeWithin(ctx: Context, have: seq<string>, remaining: int, uids: seq<string>)
    ensures Merge(ctx, have, remaining, uids).remaining >= Floor(remaining)
    decreases |uids|
  {
    if uids != [] {
      if uids[0] in have { MergeWithin(ctx, have, remaining, uids[1..]); }
      else if UidCost(ctx, uids[0]) <= remaining {
        MergeWithin(ctx, have + [uids[0]], remaining - UidCost(ctx, uids[0]), uids[1..]);
      }
    }
  }

  lemma StepWithin(ctx: Context, s: State, a: Action)
    ensures Step(ctx, s, a).state.remaining >= Floor(s.remaining)
  {
    if a.Offer? && a.uids != [] {
      var at := FirstIndex(Keys(s.entries), ChildKey(a.item));
      if at < |s.entries| { MergeWithin(ctx, s.entries[at].parentUIDs, s.remaining, a.uids); }
    }
  }

  /** No run spends a byte it does not have. */
  lemma {:induction false} RunWithin(ctx: Context, s: State, script: seq<Action>)
    ensures Run(ctx, s, script).state.remaining >= Floor(s.remaining)
    decreases |script|
  {
    if script != [] {
      StepWithin(ctx, s, script[0]);
      var r := Step(ctx, s, script[0]);
      if r.outcome == Done { RunWithin(ctx, r.state, script[1..]); }
    }
  }

  // ----- bounded work ----------------------------------------------------------------------

  /** How many of the calls followed a continue token. */
  function Continued(calls: seq<Request>): nat {
    if calls == [] then 0
    else Continued(calls[..|calls| - 1]) + (if calls[|calls| - 1].cont != "" then 1 else 0)
  }

  ghost predicate WithinBudgets(s: State, lists: int, conts: int) {
    && |s.calls| + s.lists == lists
    && Continued(s.calls) + s.conts <= conts
    && s.conts <= conts
    && (lists >= 0 ==> s.lists >= 0)
    && (conts >= 0 ==> s.conts >= 0)
    && (|s.entries| <= s.limit || s.entries == [])
  }

  /** No run, against any server, issues more LIST calls or follows more tokens than it was given. */
  lemma {:induction false} RunBounded(ctx: Context, s: State, script: seq<Action>, lists: int, conts: int)
    requires WithinBudgets(s, lists, conts)
    ensures WithinBudgets(Run(ctx, s, script).state, lists, conts)
    decreases |script|
  {
    if script != [] {
      var r := Step(ctx, s, script[0]);
      if script[0].Call? {
        var calls := s.calls + [script[0].request];
        assert calls[..|s.calls|] == s.calls;
      }
      if r.outcome == Done { RunBounded(ctx, r.state, script[1..], lists, conts); }
    }
  }

  // ----- truncation is prefix-sound ----------------------------------------------------------

  /** Every match of `a` is the match of `b` at the same position, with a prefix of its parents. */
  ghost predicate PrefixOf(a: seq<Entry>, b: seq<Entry>) {
    && |a| <= |b|
    && forall i :: 0 <= i < |a| ==>
         a[i].key == b[i].key && a[i].raw == b[i].raw && a[i].parentUIDs <= b[i].parentUIDs
  }

  lemma {:induction false} MergeExtends(ctx: Context, have: seq<string>, remaining: int, uids: seq<string>)
    ensures have <= Merge(ctx, have, remaining, uids).uids
    decreases |uids|
  {
    if uids != [] {
      if uids[0] in have { MergeExtends(ctx, have, remaining, uids[1..]); }
      else if UidCost(ctx, uids[0]) <= remaining {
        MergeExtends(ctx, have + [uids[0]], remaining - UidCost(ctx, uids[0]), uids[1..]);
      }
    }
  }

  lemma StepGrows(ctx: Context, s: State, a: Action)
    ensures PrefixOf(s.entries, Step(ctx, s, a).state.entries)
  {
    if a.Offer? {
      var at := FirstIndex(Keys(s.entries), ChildKey(a.item));
      if at < |s.entries| { MergeExtends(ctx, s.entries[at].parentUIDs, s.remaining, a.uids); }
    }
  }

  lemma {:induction false} RunGrows(ctx: Context, s: State, script: seq<Action>)
    ensures PrefixOf(s.entries, Run(ctx, s, script).state.entries)
    decreases |script|
  {
    if script != [] {
      StepGrows(ctx, s, script[0]);
      var r := Step(ctx, s, script[0]);
      if r.outcome == Done { RunGrows(ctx, r.state, script[1..]); }
    }
  }

  /** Two runs that have done the same so far, the second with at least as much left of everything. */
  ghost predicate Tighter(s: State, t: State) {
    && s.entries == t.entries && s.calls == t.calls
    && s.limit <= t.limit && s.remaining <= t.remaining && s.lists <= t.lists && s.conts <= t.conts
  }

  /** The tighter run either stopped early, on a prefix, or is still in step with the other. */
  ghost predicate StopsHonestly(r: Ran, q: Ran) {
    || (r.outcome == Truncated && PrefixOf(r.state.entries, q.state.entries))
    || (r.outcome == q.outcome && Tighter(r.state, q.state))
  }

  lemma {:induction false} MergeTighter(ctx: Context, have: seq<string>, r: int, q: int, uids: seq<string>)
    requires r <= q
    ensures var m, n := Merge(ctx, have, r, uids), Merge(ctx, have, q, uids);
            if m.fits then n.fits && m.uids == n.uids && m.remaining <= n.remaining
            else m.uids <= n.uids
    decreases |uids|
  {
    if uids != [] {
      if uids[0] in have { MergeTighter(ctx, have, r, q, uids[1..]); }
      else if UidCost(ctx, uids[0]) <= r {
        MergeTighter(ctx, have + [uids[0]], r - UidCost(ctx, uids[0]), q - UidCost(ctx, uids[0]), uids[1..]);
      } else {
        MergeExtends(ctx, have, q, uids);
      }
    }
  }

  lemma StepTighter(ctx: Context, s: State, t: State, a: Action)
    requires Tighter(s, t)
    ensures StopsHonestly(Step(ctx, s, a), Step(ctx, t, a))
  {
    if a.Offer? {
      var at := FirstIndex(Keys(s.entries), ChildKey(a.item));
      if at < |s.entries| { MergeTighter(ctx, s.entries[at].parentUIDs, s.remaining, t.remaining, a.uids); }
    }
    StepGrows(ctx, t, a);
  }

  /**
   Truncation is prefix-sound: give any run less of any budget and it either does exactly the
   same, or reports truncation with a prefix of the same matches.
   */
  lemma {:induction false} RunTighter(ctx: Context, s: State, t: State, script: seq<Action>)
    requires Tighter(s, t)
    ensures StopsHonestly(Run(ctx, s, script), Run(ctx, t, script))
    decreases |script|
  {
    if script != [] {
      StepTighter(ctx, s, t, script[0]);
      var r, q := Step(ctx, s, script[0]), Step(ctx, t, script[0]);
      if q.outcome == Done {
        RunGrows(ctx, q.state, script[1..]);
        if r.outcome == Done { RunTighter(ctx, r.state, q.state, script[1..]); }
      }
    }
  }

  // ----- queries do not disturb each other -----------------------------------------------------

  function Poorer(s: State, less: nat): State {
    s.(remaining := s.remaining - less)
  }

  lemma {:induction false} MergePoorer(ctx: Context, have: seq<string>, remaining: int, less: nat, uids: seq<string>)
    requires Merge(ctx, have, remaining, uids).remaining >= less
    ensures var m := Merge(ctx, have, remaining, uids);
            Merge(ctx, have, remaining - less, uids) == m.(remaining := m.remaining - less)
    decreases |uids|
  {
    if uids != [] {
      if uids[0] in have { MergePoorer(ctx, have, remaining, less, uids[1..]); }
      else if UidCost(ctx, uids[0]) <= remaining {
        MergeSpends(ctx, have + [uids[0]], remaining - UidCost(ctx, uids[0]), uids[1..]);
        MergePoorer(ctx, have + [uids[0]], remaining - UidCost(ctx, uids[0]), less, uids[1..]);
      }
    }
  }

  lemma StepPoorer(ctx: Context, s: State, less: nat, a: Action)
    requires Step(ctx, s, a).state.remaining >= less
    ensures Step(ctx, Poorer(s, less), a) == Ran(Poorer(Step(ctx, s, a).state, less), Step(ctx, s, a).outcome)
  {
    if a.Offer? {
      var at := FirstIndex(Keys(s.entries), ChildKey(a.item));
      if at < |s.entries| && a.uids != [] { MergePoorer(ctx, s.entries[at].parentUIDs, s.remaining, less, a.uids); }
    }
  }

  /**
   A run that leaves at least `less` bytes unspent does the same with `less` bytes fewer, even when
   it is truncated by an item that fits in neither budget.
   */
  lemma {:induction false} RunPoorer(ctx: Context, s: State, less: nat, script: seq<Action>)
    requires Run(ctx, s, script).state.remaining >= less
    ensures Run(ctx, Poorer(s, less), script) == Ran(Poorer(Run(ctx, s, script).state, less), Run(ctx, s, script).outcome)
    decreases |script|
  {
    if script != [] {
      var r := Step(ctx, s, script[0]);
      if r.outcome == Done { RunSpends(ctx, r.state, script[1..]); }
      StepPoorer(ctx, s, less, script[0]);
      if r.outcome == Done { RunPoorer(ctx, r.state, less, script[1..]); }
    }
  }
}
