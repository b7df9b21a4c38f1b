/**
 What a caller gets, from the request's own fields: which objects a query reports and for which
 parents, when it is refused, and how failures show.
 */
module ResourceTreeAnswers {
  import opened Sequences
  import opened ResourceTree
  import opened ResourceTreeBudgets
  import opened ResourceTreeExact
  import opened ResourceTreeQueries
  import opened ResourceTreeTheorems

  // ----- attribution ----------------------------------------------------------------------------------------

  /** `parents[k]` is the first one picked for `item` under this UID. */
  ghost predicate FirstPick(parents: seq<ParentRef>, picks: (ParentRef, Item) -> bool, item: Item, uid: string, k: nat) {
    && k < |parents| && picks(parents[k], item) && parents[k].uid == uid
    && forall j :: 0 <= j < k ==> !(picks(parents[j], item) && parents[j].uid == uid)
  }

  /** `uids` are those of the parents picked for `item`: each once, in the order of the request. */
  ghost predicate InRequestOrder(parents: seq<ParentRef>, picks: (ParentRef, Item) -> bool, item: Item, uids: seq<string>) {
    && Distinct(uids)
    && (forall uid :: uid in uids <==> exists p :: p in parents && picks(p, item) && p.uid == uid)
    && forall i, j, a: nat, b: nat ::
         (0 <= i < j < |uids| && FirstPick(parents, picks, item, uids[i], a) && FirstPick(parents, picks, item, uids[j], b)) ==> a < b
  }

  /** The matches are the objects for which some parent is picked, each once, shaped as asked, with exactly those parents. */
  ghost predicate Reports(h: Handler, q: Query, cluster: set<Item>, picks: (ParentRef, Item) -> bool, items: seq<Item>, matches: seq<MatchedObject>) {
    && |items| == |matches| && Distinct(items)
    && (forall item :: item in items <==> item in cluster && exists p :: p in q.parents && picks(p, item))
    && forall i :: 0 <= i < |items| ==>
         && h.shape(q.child, q.metadataOnly, items[i]) == Some(matches[i].raw)
         && InRequestOrder(q.parents, picks, items[i], matches[i].parentUIDs)
  }

  /** ownerRef: a parent of the object's own namespace that the object names as owner. */
  ghost function ByOwner(): (ParentRef, Item) -> bool {
    (p: ParentRef, item: Item) => p.namespace == item.namespace && p.uid in item.owners
  }

  /**
   labelSelector: a parent with every field the labels use, whose selector selects the object in one of
   the namespaces given, or in the parent's own when none are.
   */
  ghost function BySelector(c: Criteria, selects: (string, Item) -> bool): (ParentRef, Item) -> bool {
    (p: ParentRef, item: Item) =>
      && (c.usesName ==> p.name != "") && (c.usesNamespace ==> p.namespace != "")
      && (if c.namespaces == [] then p.namespace != "" && item.namespace == p.namespace else item.namespace in c.namespaces)
      && c.selectorFor(p).Some? && selects(c.selectorFor(p).value, item)
  }

  // ----- ownerRef in request order ------------------------------------------------------------------------------

  lemma {:induction false} UidsInFirst(parents: seq<ParentRef>, ns: string, uid: string, k: nat)
    requires k < |parents| && parents[k].namespace == ns && parents[k].uid == uid
    requires forall j :: 0 <= j < k ==> !(parents[j].namespace == ns && parents[j].uid == uid)
    ensures FirstIndex(UidsIn(parents, ns), uid) == |UidsIn(parents[..k], ns)|
    decreases k
  {
    var rest := UidsIn(parents[1..], ns);
    if k == 0 {
      assert UidsIn(parents, ns) == [uid] + rest;
    } else {
      assert parents[..k][1..] == parents[1..][..k - 1];
      assert forall j :: 0 <= j < k - 1 ==> parents[1..][j] == parents[j + 1];
      UidsInFirst(parents[1..], ns, uid, k - 1);
      if parents[0].namespace == ns { FirstIndexSplit([parents[0].uid], rest, uid); }
    }
  }

  lemma {:induction false} UidsInGrows(parents: seq<ParentRef>, ns: string, a: nat, b: nat)
    requires a <= b <= |parents|
    ensures |UidsIn(parents[..a], ns)| <= |UidsIn(parents[..b], ns)|
    decreases a
  {
    if a > 0 {
      assert parents[..a][1..] == parents[1..][..a - 1] && parents[..b][1..] == parents[1..][..b - 1];
      UidsInGrows(parents[1..], ns, a - 1, b - 1);
    }
  }

  lemma OwnerFirst(parents: seq<ParentRef>, item: Item, uid: string, k: nat)
    requires FirstPick(parents, ByOwner(), item, uid, k)
    ensures FirstIndex(UidsIn(parents, item.namespace), uid) == |UidsIn(parents[..k], item.namespace)|
  {
    UidsInFirst(parents, item.namespace, uid, k);
  }

  lemma OwnersInOrder(parents: seq<ParentRef>, item: Item)
    ensures InRequestOrder(parents, ByOwner(), item, OwnersAmong(parents, item))
  {
    var out := OwnersAmong(parents, item);
    OwnersAmongMeaning(parents, item);
    forall i, j, a: nat, b: nat
      | 0 <= i < j < |out| && FirstPick(parents, ByOwner(), item, out[i], a) && FirstPick(parents, ByOwner(), item, out[j], b)
      ensures a < b
    {
      OwnerFirst(parents, item, out[i], a);
      OwnerFirst(parents, item, out[j], b);
      if b <= a { UidsInGrows(parents, item.namespace, b, a); }
    }
    forall uid ensures uid in out <==> exists p :: p in parents && ByOwner()(p, item) && p.uid == uid {
      if p :| p in parents && Owns(p, item) && p.uid == uid { assert ByOwner()(p, item); }
    }
  }

  // ----- labelSelector under the request's own criteria ------------------------------------------------------------

  /** Dropping repeated namespaces changes nothing about who selects what. */
  lemma SelectsMeans(c: Criteria, p: ParentRef, item: Item, selects: (string, Item) -> bool)
    ensures Selects(c.(namespaces := Dedup(c.namespaces)), p, item, selects) <==> BySelector(c, selects)(p, item)
  {
    AppendAllMembers([], c.namespaces);
    DedupEmpty(c.namespaces);
  }

  lemma SelectorsInOrder(c: Criteria, parents: seq<ParentRef>, item: Item, selects: (string, Item) -> bool)
    ensures InRequestOrder(parents, BySelector(c, selects), item, SelectorsAmong(c.(namespaces := Dedup(c.namespaces)), parents, item, selects))
  {
    var d, picks := c.(namespaces := Dedup(c.namespaces)), BySelector(c, selects);
    var out := SelectorsAmong(d, parents, item, selects);
    SelectorsAmongMeaning(d, parents, item, selects);
    forall p ensures Selects(d, p, item, selects) <==> picks(p, item) { SelectsMeans(c, p, item, selects); }
    forall uid ensures uid in out <==> exists p :: p in parents && picks(p, item) && p.uid == uid {
      if p :| p in parents && Selects(d, p, item, selects) && p.uid == uid { assert picks(p, item); }
    }
    forall uid, k: nat | FirstPick(parents, picks, item, uid, k) ensures FirstToSelect(d, parents, item, selects, uid, k) { }
  }

  // ----- one query --------------------------------------------------------------------------------------------------

  lemma OwnerAnswer(h: Handler, q: Query, l: Limits, cluster: set<Item>, selects: (string, Item) -> bool) returns (items: seq<Item>)
    requires Validate(h, q) == OwnerRefQuery && Faithful(h.server, q.child, cluster, selects)
    requires ResultOf(q.id, Execute(h, q, OwnerPlan(q.parents), l)).error == None
    ensures Reports(h, q, cluster, ByOwner(), items, ResultOf(q.id, Execute(h, q, OwnerPlan(q.parents), l)).matches)
  {
    items := OwnerRefExact(h, q, l, cluster, selects);
    forall i | 0 <= i < |items| { OwnersInOrder(q.parents, items[i]); }
    forall p, item ensures Owns(p, item) <==> ByOwner()(p, item) { }
  }

  lemma SelectorAnswer(h: Handler, q: Query, c: Criteria, l: Limits, cluster: set<Item>, selects: (string, Item) -> bool) returns (items: seq<Item>)
    requires Validate(h, q) == LabelQuery(c.(namespaces := Dedup(c.namespaces))) && Faithful(h.server, q.child, cluster, selects)
    requires ResultOf(q.id, Execute(h, q, LabelPlan(c.(namespaces := Dedup(c.namespaces)), q.parents), l)).error == None
    ensures Reports(h, q, cluster, BySelector(c, selects), items,
                    ResultOf(q.id, Execute(h, q, LabelPlan(c.(namespaces := Dedup(c.namespaces)), q.parents), l)).matches)
  {
    items := LabelSelectorExact(h, q, c.(namespaces := Dedup(c.namespaces)), l, cluster, selects);
    forall i | 0 <= i < |items| { SelectorsInOrder(c, q.parents, items[i], selects); }
    forall p, item { SelectsMeans(c, p, item, selects); }
  }

  /**
   What a query that answers without error reports, by the matcher and the criteria it carries: under
   ownerRef the owned objects, under labelSelector the objects its own criteria select.
   */
  lemma QueryAnswer(h: Handler, q: Query, duplicated: bool, expired: bool, remaining: int, cluster: set<Item>, selects: (string, Item) -> bool)
    returns (items: seq<Item>)
    requires Faithful(h.server, q.child, cluster, selects)
    requires RunQuery(h, q, duplicated, expired, remaining).result.error == None
    ensures q.matcher == "ownerRef" || (q.matcher == "labelSelector" && q.block.Decoded?)
    ensures var matches := RunQuery(h, q, duplicated, expired, remaining).result.matches;
            && (q.matcher == "ownerRef" ==> Reports(h, q, cluster, ByOwner(), items, matches))
            && (q.matcher == "labelSelector" ==> Reports(h, q, cluster, BySelector(q.block.criteria, selects), items, matches))
  {
    if q.matcher == "ownerRef" {
      items := OwnerAnswer(h, q, LimitsFor(h, remaining), cluster, selects);
    } else {
      items := SelectorAnswer(h, q, q.block.criteria, LimitsFor(h, remaining), cluster, selects);
    }
  }

  // ----- refusals -----------------------------------------------------------------------------------------------------

  /** What a query must look like, field by field. */
  ghost predicate WellFormed(h: Handler, q: Query) {
    && q.child.version != "" && q.child.resource != "" && q.child.kind != "" && h.validResource(q.child)
    && 1 <= |q.parents| <= 256
    && (forall i :: 0 <= i < |q.parents| ==> q.parents[i].uid != "")
    && (q.matcher == "ownerRef" ==> q.block.Absent? && forall i :: 0 <= i < |q.parents| ==> q.parents[i].namespace != "")
    && (q.matcher == "labelSelector" ==> q.block.Decoded? && WellFormedCriteria(h, q.block.criteria, q.parents))
  }

  ghost predicate WellFormedCriteria(h: Handler, c: Criteria, parents: seq<ParentRef>) {
    && (c.usesName || c.usesNamespace)
    && |c.namespaces| <= 8
    && (forall i :: 0 <= i < |c.namespaces| ==> c.namespaces[i] != "" && h.isNamespaceName(c.namespaces[i]))
    && (c.namespaces == [] ==> forall i :: 0 <= i < |parents| ==> parents[i].namespace != "")
  }

  lemma ValidateIff(h: Handler, q: Query)
    requires q.matcher == "ownerRef" || q.matcher == "labelSelector"
    ensures Validate(h, q) != Invalid <==> WellFormed(h, q)
  {
    var parents := q.parents;
    assert HasUids(parents) <==> forall i :: 0 <= i < |parents| ==> parents[i].uid != "";
    assert AllNamespaced(parents) <==> forall i :: 0 <= i < |parents| ==> parents[i].namespace != "";
    if q.block.Decoded? {
      var c := q.block.criteria;
      assert forall i :: 0 <= i < |c.namespaces| ==> c.namespaces[i] in c.namespaces;
      assert (forall ns :: ns in c.namespaces ==> ns != "" && h.isNamespaceName(ns)) <==>
             (forall i :: 0 <= i < |c.namespaces| ==> c.namespaces[i] != "" && h.isNamespaceName(c.namespaces[i]));
    }
  }

  /** A query is refused exactly when its id is empty or repeated, its matcher is unknown, or it is not well formed. */
  lemma RefusedIff(h: Handler, q: Query, duplicated: bool, expired: bool, remaining: int)
    ensures var r := RunQuery(h, q, duplicated, expired, remaining).result;
            var known := q.matcher == "ownerRef" || q.matcher == "labelSelector";
            && r.id == q.id
            && (r.error == Some(CodeInvalidQuery) <==> q.id == "" || duplicated || (known && !WellFormed(h, q)))
            && (r.error == Some(CodeUnsupportedMatcher) <==> q.id != "" && !duplicated && !known)
            && (r.error == Some(CodeInvalidQuery) || r.error == Some(CodeUnsupportedMatcher) ==> r.matches == [] && !r.truncated)
  {
    if q.matcher == "ownerRef" || q.matcher == "labelSelector" { ValidateIff(h, q); }
  }

  // ----- failures ------------------------------------------------------------------------------------------------------

  /** The query passes all checks and time is left: its walks are carried out. */
  ghost predicate Runs(h: Handler, q: Query, duplicated: bool, expired: bool) {
    q.id != "" && !duplicated && !expired && (q.matcher == "ownerRef" || q.matcher == "labelSelector") && WellFormed(h, q)
  }

  function PlanFor(q: Query): seq<Walk> {
    if q.matcher == "ownerRef" then OwnerPlan(q.parents)
    else if q.block.Decoded? then LabelPlan(q.block.criteria.(namespaces := Dedup(q.block.criteria.namespaces)), q.parents)
    else []
  }

  /**
   How a query that runs comes out: the matches collected so far are kept on completion, at a limit and
   when the deadline passes, and dropped when a LIST is forbidden or anything else fails. A query whose
   time is up before it starts reports the same as one cut short before its first match.
   */
  lemma OutcomeCodes(h: Handler, q: Query, duplicated: bool, expired: bool, remaining: int)
    ensures var r := RunQuery(h, q, duplicated, expired, remaining).result;
            && (Runs(h, q, duplicated, expired) ==>
                  var ran := Execute(h, q, PlanFor(q), LimitsFor(h, remaining));
                  var kept := Strip(ran.state.entries);
                  && (ran.outcome == Done ==> r == MatchResult(q.id, kept, false, None))
                  && (ran.outcome == Truncated || ran.outcome == Failed(Deadline) ==> r == MatchResult(q.id, kept, true, Some(CodeLimitExceeded)))
                  && (ran.outcome == Failed(Forbidden) ==> r == MatchResult(q.id, [], false, Some(CodeForbidden)))
                  && (ran.outcome == Failed(Internal) ==> r == MatchResult(q.id, [], false, Some(CodeInternal))))
            && (Runs(h, q, duplicated, false) && expired ==> r == MatchResult(q.id, [], true, Some(CodeLimitExceeded)))
  {
    if q.matcher == "ownerRef" || q.matcher == "labelSelector" { ValidateIff(h, q); }
  }

  // ----- the whole request ----------------------------------------------------------------------------------------------

  lemma {:induction false} AnswerAt(h: Handler, queries: seq<Query>, duplicates: set<string>, expired: nat -> bool, remaining: int, i: nat)
    requires i < |queries|
    ensures var out := Answers(h, queries, duplicates, expired, remaining);
            out[i] == RunQuery(h, queries[i], queries[i].id in duplicates, expired(i), Left(out[..i], remaining))
    decreases |queries|
  {
    var n := |queries| - 1;
    var before, out := Answers(h, queries[..n], duplicates, expired, remaining), Answers(h, queries, duplicates, expired, remaining);
    assert out[..n] == before;
    if i < n {
      AnswerAt(h, queries[..n], duplicates, expired, remaining, i);
      assert out[..i] == before[..i];
    }
  }

  /** The id stands in the request a second time. */
  ghost predicate Repeated(queries: seq<Query>, i: nat) {
    i < |queries| && exists j :: 0 <= j < |queries| && j != i && queries[j].id == queries[i].id
  }

  lemma RepeatedIff(queries: seq<Query>, i: nat)
    requires i < |queries|
    ensures queries[i].id in Duplicates(Ids(queries)) <==> Repeated(queries, i)
  {
    var ids := Ids(queries);
    if queries[i].id in Duplicates(ids) {
      var a, b :| 0 <= a < b < |ids| && ids[a] == ids[b] && ids[a] == queries[i].id;
      if a == i { assert queries[b].id == queries[i].id; } else { assert queries[a].id == queries[i].id; }
    }
    if j :| 0 <= j < |queries| && j != i && queries[j].id == queries[i].id {
      if j < i { assert ids[j] == ids[i]; } else { assert ids[i] == ids[j]; }
    }
  }

  /** Which answer a request gets as a whole. */
  lemma ResponseIff(h: Handler, version: string, queries: seq<Query>, expired: nat -> bool, encodedSize: seq<MatchResult> -> Option<nat>)
    ensures var r := Respond(h, version, queries, expired, encodedSize);
            && (r == BadRequest <==> |queries| > 64 || exists i :: 0 <= i < |queries| && |queries[i].id| > 512)
            && (r.Matches? ==> |r.results| == |queries| && encodedSize(r.results).Some? && encodedSize(r.results).value <= 10485760)
            && (r.Matches? && version != "v1" ==> forall i :: 0 <= i < |queries| ==> r.results[i] == MatchResult(queries[i].id, [], false, Some(CodeUnsupportedVersion)))
  {
  }

  /**
   Every result of a request, position by position: it carries its query's id, it is refused exactly when
   the query deserves it, and without error it reports exactly what the query asks for.
   */
  lemma RequestAnswer(h: Handler, queries: seq<Query>, expired: nat -> bool, encodedSize: seq<MatchResult> -> Option<nat>, i: nat,
                      cluster: set<Item>, selects: (string, Item) -> bool) returns (items: seq<Item>)
    requires Respond(h, "v1", queries, expired, encodedSize).Matches? && i < |queries|
    requires Faithful(h.server, queries[i].child, cluster, selects)
    ensures var results, q := Respond(h, "v1", queries, expired, encodedSize).results, queries[i];
            var known := q.matcher == "ownerRef" || q.matcher == "labelSelector";
            && |results| == |queries| && results[i].id == q.id
            && (results[i].error == Some(CodeInvalidQuery) <==> q.id == "" || Repeated(queries, i) || (known && !WellFormed(h, q)))
            && (results[i].error == Some(CodeUnsupportedMatcher) <==> q.id != "" && !Repeated(queries, i) && !known)
            && (results[i].error == None ==>
                  if q.matcher == "ownerRef" then Reports(h, q, cluster, ByOwner(), items, results[i].matches)
                  else q.matcher == "labelSelector" && q.block.Decoded? &&
                       Reports(h, q, cluster, BySelector(q.block.criteria, selects), items, results[i].matches))
  {
    var duplicates, q := Duplicates(Ids(queries)), queries[i];
    var out := Answers(h, queries, duplicates, expired, h.maxResponseBytes);
    AnswerAt(h, queries, duplicates, expired, h.maxResponseBytes, i);
    RepeatedIff(queries, i);
    var remaining := Left(out[..i], h.maxResponseBytes);
    RefusedIff(h, q, q.id in duplicates, expired(i), remaining);
    items := [];
    if RunQuery(h, q, q.id in duplicates, expired(i), remaining).result.error == None {
      items := QueryAnswer(h, q, q.id in duplicates, expired(i), remaining, cluster, selects);
    }
  }
}
