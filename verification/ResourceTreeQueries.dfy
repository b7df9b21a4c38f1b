/** One query and one batch of queries, as functions: validation, planning, execution, result. */
module ResourceTreeQueries {
  import opened Sequences
  import opened ResourceTree

  const MAX_QUERIES_PER_REQUEST: nat := 64
  const MAX_PARENTS_PER_QUERY: nat := 256
  const MAX_SELECTOR_NAMESPACES: nat := 8
  const MAX_QUERY_ID_LENGTH: nat := 512
  const MAX_RESPONSE_BYTES: nat := 10485760
  const MATCHER_OWNER_REF := "ownerRef"
  const MATCHER_LABEL_SELECTOR := "labelSelector"
  const PROTOCOL_VERSION := "v1"

  datatype Code = CodeForbidden | CodeUnsupportedMatcher | CodeUnsupportedVersion | CodeInvalidQuery | CodeLimitExceeded | CodeInternal

  /** The criteria block after JSON decoding; Unusable when decoding or the label checks fail. */
  datatype CriteriaBlock = Absent | Unusable | Decoded(criteria: Criteria)

  datatype Query = Query(id: string, matcher: string, block: CriteriaBlock, parents: seq<ParentRef>, child: ChildKind, metadataOnly: bool)

  datatype MatchedObject = MatchedObject(parentUIDs: seq<string>, raw: string)

  datatype MatchResult = MatchResult(id: string, matches: seq<MatchedObject>, truncated: bool, error: Option<Code>)

  /** What the handler is built on, and its configured ceilings. */
  datatype Handler = Handler(
    server: Server,
    shape: (ChildKind, bool, Item) -> Option<string>,
    escapedLength: string -> nat,
    validResource: ChildKind -> bool,
    isNamespaceName: string -> bool,
    maxResponseBytes: int,
    maxListCalls: int,
    matchLimit: int)

  function ContextOf(h: Handler, q: Query): Context {
    Context((item: Item) => h.shape(q.child, q.metadataOnly, item), h.escapedLength)
  }

  // ----- validation ------------------------------------------------------------------------------

  datatype Validated = Invalid | OwnerRefQuery | LabelQuery(criteria: Criteria)

  predicate HasUids(parents: seq<ParentRef>) {
    forall p :: p in parents ==> p.uid != ""
  }

  predicate AllNamespaced(parents: seq<ParentRef>) {
    forall p :: p in parents ==> p.namespace != ""
  }

  predicate ValidCriteria(h: Handler, c: Criteria) {
    && (c.usesName || c.usesNamespace)
    && |c.namespaces| <= MAX_SELECTOR_NAMESPACES
    && forall ns :: ns in c.namespaces ==> ns != "" && h.isNamespaceName(ns)
  }

  /** The checks a query must pass before anything is listed; criteria come back with distinct namespaces. */
  function Validate(h: Handler, q: Query): Validated {
    if q.child.version == "" || q.child.resource == "" || q.child.kind == "" || !h.validResource(q.child) then Invalid
    else if q.parents == [] || |q.parents| > MAX_PARENTS_PER_QUERY || !HasUids(q.parents) then Invalid
    else if q.matcher == MATCHER_OWNER_REF then
      if q.block != Absent || !AllNamespaced(q.parents) then Invalid else OwnerRefQuery
    else match q.block
      case Absent => Invalid
      case Unusable => Invalid
      case Decoded(c) =>
        if !ValidCriteria(h, c) || (c.namespaces == [] && !AllNamespaced(q.parents)) then Invalid
        else LabelQuery(c.(namespaces := Dedup(c.namespaces)))
  }

  function PlanOf(v: Validated, q: Query): seq<Walk> {
    match v
    case Invalid => []
    case OwnerRefQuery => OwnerPlan(q.parents)
    case LabelQuery(c) => LabelPlan(c, q.parents)
  }

  // ----- one query ---------------------------------------------------------------------------------

  datatype Limits = Limits(matches: int, bytes: int, lists: int, pages: int)

  function Start(l: Limits): State {
    State([], l.matches, l.bytes, l.lists, l.pages, [])
  }

  function Fuel(lists: int): nat {
    if lists < 0 then 0 else lists
  }

  function Execute(h: Handler, q: Query, plan: seq<Walk>, l: Limits): Ran {
    Run(ContextOf(h, q), Start(l), PlanScript(h.server, q.child, plan, Fuel(l.lists)))
  }

  function Strip(entries: seq<Entry>): (out: seq<MatchedObject>)
    ensures |out| == |entries|
    ensures forall i :: 0 <= i < |out| ==> out[i] == MatchedObject(entries[i].parentUIDs, entries[i].raw)
  {
    seq(|entries|, i requires 0 <= i < |entries| => MatchedObject(entries[i].parentUIDs, entries[i].raw))
  }

  function ErrorResult(id: string, code: Code): MatchResult {
    MatchResult(id, [], false, Some(code))
  }

  /** Truncation, the deadline included, keeps the matches; a failure discards them. */
  function ResultOf(id: string, r: Ran): MatchResult {
    match r.outcome
    case Done => MatchResult(id, Strip(r.state.entries), false, None)
    case Truncated => MatchResult(id, Strip(r.state.entries), true, Some(CodeLimitExceeded))
    case Failed(Deadline) => MatchResult(id, Strip(r.state.entries), true, Some(CodeLimitExceeded))
    case Failed(Forbidden) => ErrorResult(id, CodeForbidden)
    case Failed(Internal) => ErrorResult(id, CodeInternal)
  }

  datatype Answer = Answer(result: MatchResult, remaining: int, accumulated: seq<Entry>)

  function LimitsFor(h: Handler, remaining: int): Limits {
    Limits(h.matchLimit, remaining, h.maxListCalls, MAX_CONTINUATION_PAGES_PER_QUERY)
  }

  /** What a query answers given the bytes left in the batch, and what it leaves. */
  function RunQuery(h: Handler, q: Query, duplicated: bool, expired: bool, remaining: int): Answer {
    if q.id == "" || duplicated then Answer(ErrorResult(q.id, CodeInvalidQuery), remaining, [])
    else if q.matcher != MATCHER_OWNER_REF && q.matcher != MATCHER_LABEL_SELECTOR then
      Answer(ErrorResult(q.id, CodeUnsupportedMatcher), remaining, [])
    else
      var v := Validate(h, q);
      if v == Invalid then Answer(ErrorResult(q.id, CodeInvalidQuery), remaining, [])
      else if expired then Answer(MatchResult(q.id, [], true, Some(CodeLimitExceeded)), remaining, [])
      else
        var r := Execute(h, q, PlanOf(v, q), LimitsFor(h, remaining));
        Answer(ResultOf(q.id, r), r.state.remaining, r.state.entries)
  }

  // ----- a batch -------------------------------------------------------------------------------------

  function Ids(queries: seq<Query>): (ids: seq<string>)
    ensures |ids| == |queries|
    ensures forall i :: 0 <= i < |ids| ==> ids[i] == queries[i].id
  {
    seq(|queries|, i requires 0 <= i < |queries| => queries[i].id)
  }

  /** The ids that occur more than once. */
  function Duplicates(ids: seq<string>): set<string> {
    set i, j | 0 <= i < j < |ids| && ids[i] == ids[j] :: ids[i]
  }

  /** The answers of a batch, in order, the byte budget handed from each query to the next. */
  function Answers(h: Handler, queries: seq<Query>, duplicates: set<string>, expired: nat -> bool, remaining: int): (out: seq<Answer>)
    ensures |out| == |queries|
    decreases |queries|
  {
    if queries == [] then []
    else
      var n := |queries| - 1;
      var before := Answers(h, queries[..n], duplicates, expired, remaining);
      before + [RunQuery(h, queries[n], queries[n].id in duplicates, expired(n), Left(before, remaining))]
  }

  /** What a batch has left of its byte budget after these answers. */
  function Left(answers: seq<Answer>, remaining: int): int {
    if answers == [] then remaining else answers[|answers| - 1].remaining
  }

  function Results(answers: seq<Answer>): (out: seq<MatchResult>)
    ensures |out| == |answers|
    ensures forall i :: 0 <= i < |out| ==> out[i] == answers[i].result
  {
    seq(|answers|, i requires 0 <= i < |answers| => answers[i].result)
  }

  /** The tunnel response; None as encoded size when the response cannot be marshalled. */
  datatype Response = BadRequest | ServerError | Matches(results: seq<MatchResult>)

  function Encode(results: seq<MatchResult>, encodedSize: seq<MatchResult> -> Option<nat>): Response {
    match encodedSize(results)
    case None => ServerError
    case Some(size) => if size > MAX_RESPONSE_BYTES then ServerError else Matches(results)
  }

  function Unsupported(queries: seq<Query>): (out: seq<MatchResult>)
    ensures |out| == |queries|
    ensures forall i :: 0 <= i < |out| ==> out[i] == ErrorResult(queries[i].id, CodeUnsupportedVersion)
  {
    seq(|queries|, i requires 0 <= i < |queries| => ErrorResult(queries[i].id, CodeUnsupportedVersion))
  }

  /** The whole request: size checks, version check, then the batch under one byte budget. */
  function Respond(h: Handler, version: string, queries: seq<Query>, expired: nat -> bool,
                   encodedSize: seq<MatchResult> -> Option<nat>): Response {
    if |queries| > MAX_QUERIES_PER_REQUEST then BadRequest
    else if exists i :: 0 <= i < |queries| && |queries[i].id| > MAX_QUERY_ID_LENGTH then BadRequest
    else if version != PROTOCOL_VERSION then Encode(Unsupported(queries), encodedSize)
    else Encode(Results(Answers(h, queries, Duplicates(Ids(queries)), expired, h.maxResponseBytes)), encodedSize)
  }
}
