/** The pure parts of services/aiService.ts: pulling the JSON out of a model reply, validating a
    parsed graph, and normalising a parsed verification report. The chat call, the prompts and
    `JSON.parse` are left to the caller: the functions here start from the reply text or from
    the already-parsed value. */
module AiService {
  import opened Base
  import opened Text
  import opened Seqs
  import opened Extraction
  import opened Types

  // ---------------------------------------------------------------------------------------
  // extractFirstJson

  /** `extractFirstJson`: the first json-tagged block, else the first bare block, with markers
      removed and trimmed; otherwise the brace scan from the first `{`; the text itself when it
      holds no `{`. */
  function ExtractFirstJson(text: string): (r: string)
    ensures |r| <= |text|
  {
    match FenceStage(JsFolding, true, IsJsWhitespace, text)
    case Some(inner) => inner
    case None =>
      match BraceStage(text)
      case Some(obj) => obj
      case None => text
  }

  /** A json-tagged block wins: the result is the trimmed text between the first "```json" (in
      any ASCII case) and the first "```" after it. */
  lemma ExtractTagged(text: string, a: nat, b: nat)
    requires FirstBlock(JsFolding, JsonTag, text, 0) == Some((a, b))
    ensures a + 10 <= b <= |text| && TagAt(JsFolding, text, a) && FenceAt(text, b - 3)
    ensures ExtractFirstJson(text) == Trim(text[a + 7..b - 3], IsJsWhitespace)
  {
    FenceStageTagged(JsFolding, true, IsJsWhitespace, text, a, b);
  }

  /** Without a json-tagged block, the first bare block is used the same way. */
  lemma ExtractBare(text: string, a: nat, b: nat)
    requires FirstBlock(JsFolding, JsonTag, text, 0).None?
    requires FirstBlock(JsFolding, BareFence, text, 0) == Some((a, b))
    ensures a + 6 <= b <= |text| && FenceAt(text, a) && FenceAt(text, b - 3)
    ensures ExtractFirstJson(text) == Trim(text[a + 3..b - 3], IsJsWhitespace)
  {
    FenceStageBare(JsFolding, true, IsJsWhitespace, text, a, b);
  }

  /** With no block and no `{`, the text comes back unchanged. */
  lemma ExtractPlain(text: string)
    requires FirstBlock(JsFolding, BareFence, text, 0).None? && '{' !in text
    ensures ExtractFirstJson(text) == text
  {
    FenceStageNone(JsFolding, true, IsJsWhitespace, text);
  }

  /** With no block, the result starts at the first `{` and is either the first balanced object
      there (equal brace counts, every proper non-empty prefix with more `{`) or, when the depth
      never returns to zero, the whole rest of the text. */
  lemma ExtractBraces(text: string, first: nat)
    requires FirstBlock(JsFolding, BareFence, text, 0).None?
    requires first < |text| && text[first] == '{' && '{' !in text[..first]
    ensures var r := ExtractFirstJson(text);
      && first + |r| <= |text| && r == text[first..first + |r|]
      && (IsBalancedObject(r) || (r == text[first..] && forall k :: 0 < k <= |r| ==> Depth(r[..k]) > 0))
  {
    FenceStageNone(JsFolding, true, IsJsWhitespace, text);
    assert IndexOf(text, '{') == Some(first) by {
      assert forall i :: 0 <= i < first ==> text[i] == text[..first][i];
    }
  }

  /** A balanced object free of backticks comes back whole when wrapped in a json-tagged block
      on lines of its own. */
  lemma ExtractWrappedObject(j: string)
    requires |j| > 0 && j[0] == '{' && IsBalancedObject(j) && '`' !in j
    ensures ExtractFirstJson("```json\n" + j + "\n```") == j
  {
    BalancedObjectEnds(j);
    WrappedBlock(JsFolding, true, IsJsWhitespace, "```json", j);
    WrapShape(j);
  }

  lemma WrapShape(j: string)
    ensures "```json\n" + j + "\n```" == "```json" + "\n" + j + "\n```"
  {
    assert "```json\n" == "```json" + "\n";
  }

  /** The same object on its own also comes back whole. */
  lemma ExtractBareObject(j: string)
    requires |j| > 0 && j[0] == '{' && IsBalancedObject(j) && '`' !in j
    ensures ExtractFirstJson(j) == j
  {
    NoBacktickNoBlock(JsFolding, BareFence, j);
    FenceStageNone(JsFolding, true, IsJsWhitespace, j);
    BraceStageOfObject(j);
  }

  // ---------------------------------------------------------------------------------------
  // parseAndValidateGraph

  /** The endpoint test of the edge filter: `nodeIds.has(e.source as string)`. Only a string
      can equal a node id. */
  predicate IsNodeRef(ids: set<string>, p: Option<Endpoint>) {
    p.Some? && p.value.Ref? && p.value.name in ids
  }

  /** The edge filter for a given id set. */
  function KeepEdge(ids: set<string>): RawEdge -> bool {
    (e: RawEdge) => IsNodeRef(ids, e.source) && IsNodeRef(ids, e.target)
  }

  /** The name of a string endpoint (the `as string` cast on an edge the filter kept). */
  function RefName(p: Option<Endpoint>): string {
    if p.Some? && p.value.Ref? then p.value.name else ""
  }

  /** The edge written to the result: source, target and relation; the `id` is dropped. */
  function Reduce(e: RawEdge): GraphEdge {
    GraphEdge(RefName(e.source), RefName(e.target), e.relation, None)
  }

  /** `parseAndValidateGraph` on the parsed reply. A missing `nodes` or `edges` key throws a
      TypeError when the code calls `map` or `filter` on it. */
  function ParseAndValidateGraph(raw: RawGraph): (r: Result<GraphData, string>)
    ensures r.Err? <==> raw.nodes.None? || raw.edges.None?
    ensures r.Ok? ==> r.value.nodes == raw.nodes.value && WellFormed(r.value)
  {
    if raw.nodes.None? then Err("Cannot read properties of undefined (reading 'map')")
    else if raw.edges.None? then Err("Cannot read properties of undefined (reading 'filter')")
    else
      var ids := NodeIds(raw.nodes.value);
      var edges := FilterMap(raw.edges.value, KeepEdge(ids), Reduce);
      assert forall k :: 0 <= k < |edges| ==> KeepEdge(ids)(raw.edges.value[KeptIndices(raw.edges.value, KeepEdge(ids))[k]]);
      Ok(GraphData(raw.nodes.value, edges))
  }

  /** The surviving edges are exactly the raw edges whose two endpoints are node-id strings, in
      their original order, each reduced to source, target and relation. A dangling edge is
      dropped without a report. */
  lemma ValidatedEdges(raw: RawGraph)
    requires raw.nodes.Some? && raw.edges.Some?
    ensures var g := ParseAndValidateGraph(raw).value;
      var idx := KeptIndices(raw.edges.value, KeepEdge(NodeIds(raw.nodes.value)));
      && |g.edges| == |idx|
      && (forall k :: 0 <= k < |idx| ==> g.edges[k] == Reduce(raw.edges.value[idx[k]]))
      && (forall k, l :: 0 <= k < l < |idx| ==> idx[k] < idx[l])
      && (forall j :: 0 <= j < |raw.edges.value| ==>
            (j in idx <==> (IsNodeRef(NodeIds(raw.nodes.value), raw.edges.value[j].source)
                         && IsNodeRef(NodeIds(raw.nodes.value), raw.edges.value[j].target))))
  {
  }

  /** Validating a validated graph again changes nothing. */
  lemma ValidateIdempotent(raw: RawGraph)
    requires ParseAndValidateGraph(raw).Ok?
    ensures var g := ParseAndValidateGraph(raw).value;
      ParseAndValidateGraph(EmbedGraph(g)) == Ok(g)
  {
    var g := ParseAndValidateGraph(raw).value;
    assert forall k :: 0 <= k < |g.edges| ==> g.edges[k].id == None;
    RevalidateClean(g);
  }

  /** A well-formed graph whose edges carry no `id` passes validation unchanged. */
  lemma RevalidateClean(g: GraphData)
    requires WellFormed(g) && forall k :: 0 <= k < |g.edges| ==> g.edges[k].id == None
    ensures ParseAndValidateGraph(EmbedGraph(g)) == Ok(g)
  {
    var raw := EmbedGraph(g);
    var ids := NodeIds(g.nodes);
    var es := raw.edges.value;
    assert forall j :: 0 <= j < |es| ==> KeepEdge(ids)(es[j]);
    FilterMapAllKept(es, KeepEdge(ids), Reduce);
    assert FilterMap(es, KeepEdge(ids), Reduce) == g.edges;
  }

  // ---------------------------------------------------------------------------------------
  // The report normalisation in verifyKnowledgeGraph

  /** `Number(x ?? 0)` on a score: a missing key and `null` both give 0. */
  function ScoreOrZero(s: Option<Score>): int {
    if s.Some? && s.value.IntScore? then s.value.n else 0
  }

  /** `Array.isArray(x) ? x : []`. */
  function ArrayOrEmpty(v: Option<Value>): seq<Value> {
    if v.Some? && v.value.Arr? then v.value.items else []
  }

  /** JavaScript `String(v)` of a parsed value. An array joins its elements' strings with
      commas, writing `null` elements as the empty string. */
  function JsString(v: Value): (r: string)
    ensures v.Str? ==> r == v.s
    ensures v.Arr? && v.items == [] ==> r == []
    decreases v
  {
    match v
    case Null => "null"
    case Bool(b) => if b then "true" else "false"
    case Num(n) => IntToDecimal(n)
    case Str(s) => s
    case Arr(items) =>
      Join(seq(|items|, i requires 0 <= i < |items| => if items[i].Null? then "" else JsString(items[i])), ",")
    case Obj(_) => "[object Object]"
  }

  /** `String(x ?? '')`. */
  function StringOrEmpty(v: Option<Value>): string {
    if v.None? || v.value.Null? then "" else JsString(v.value)
  }

  /** The record `verifyKnowledgeGraph` returns for a parsed reply. */
  function NormalizeVerification(raw: RawVerification): (r: VerificationResult)
    ensures raw.validityScore.None? || raw.validityScore == Some(NullScore) ==> r.validityScore == 0
    ensures raw.completenessScore.None? || raw.completenessScore == Some(NullScore) ==> r.completenessScore == 0
    ensures raw.feedback.Some? && raw.feedback.value.Arr? ==> r.feedback == raw.feedback.value.items
    ensures !(raw.feedback.Some? && raw.feedback.value.Arr?) ==> r.feedback == []
    ensures raw.missingEntities.Some? && raw.missingEntities.value.Arr? ==> r.missingEntities == raw.missingEntities.value.items
    ensures !(raw.missingEntities.Some? && raw.missingEntities.value.Arr?) ==> r.missingEntities == []
    ensures raw.validityScore.Some? && raw.validityScore.value.IntScore? ==> r.validityScore == raw.validityScore.value.n
    ensures raw.completenessScore.Some? && raw.completenessScore.value.IntScore? ==> r.completenessScore == raw.completenessScore.value.n
    ensures raw.suggestions.None? || raw.suggestions == Some(Null) ==> r.suggestions == []
    ensures raw.suggestions.Some? && raw.suggestions.value.Str? ==> r.suggestions == raw.suggestions.value.s
    ensures raw.suggestions.Some? && !raw.suggestions.value.Null? ==> r.suggestions == JsString(raw.suggestions.value)
  {
    VerificationResult(
      ScoreOrZero(raw.validityScore),
      ScoreOrZero(raw.completenessScore),
      ArrayOrEmpty(raw.feedback),
      ArrayOrEmpty(raw.missingEntities),
      StringOrEmpty(raw.suggestions))
  }

  /** A report written out as a reply, every key present. */
  function EmbedVerification(v: VerificationResult): RawVerification {
    RawVerification(
      Some(IntScore(v.validityScore)),
      Some(IntScore(v.completenessScore)),
      Some(Arr(v.feedback)),
      Some(Arr(v.missingEntities)),
      Some(Str(v.suggestions)))
  }

  /** Normalisation gives back any report written out in full. */
  lemma NormalizeRoundTrip(v: VerificationResult)
    ensures NormalizeVerification(EmbedVerification(v)) == v
  {
  }

  /** An empty reply object gives the all-default report. */
  lemma NormalizeEmpty()
    ensures NormalizeVerification(RawVerification(None, None, None, None, None))
      == VerificationResult(0, 0, [], [], "")
  {
  }
}
