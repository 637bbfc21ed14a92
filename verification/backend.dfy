/** The pure parts of backend/app.py: `extract_first_json`, `validate_graph` and the report
    normalisation at the end of `verify`, with the places where they part ways with their
    TypeScript twins. The routes, the OpenAI client and `json.loads` are left to the caller. */
module Backend {
  import opened Base
  import opened Text
  import opened Seqs
  import opened Extraction
  import opened Types
  import AiService

  // ---------------------------------------------------------------------------------------
  // extract_first_json

  /** `extract_first_json`: as in TypeScript, except that the bare-block substitution removes
      only "```", the json tag also folds U+017F onto `s`, `strip` uses Python's whitespace, and
      a text without `{` comes back stripped. */
  function ExtractFirstJson(text: string): (r: string)
    ensures |r| <= |text|
  {
    match FenceStage(PyFolding, false, IsPyWhitespace, text)
    case Some(inner) => inner
    case None =>
      match BraceStage(text)
      case Some(obj) => obj
      case None => Trim(text, IsPyWhitespace)
  }

  /** A json-tagged block takes priority: its text between tag and closing fence, stripped. */
  lemma ExtractTagged(text: string, a: nat, b: nat)
    requires FirstBlock(PyFolding, JsonTag, text, 0) == Some((a, b))
    ensures a + 10 <= b <= |text| && TagAt(PyFolding, text, a) && FenceAt(text, b - 3)
    ensures ExtractFirstJson(text) == Trim(text[a + 7..b - 3], IsPyWhitespace)
  {
    FenceStageTagged(PyFolding, false, IsPyWhitespace, text, a, b);
  }

  /** Otherwise the first bare block, its "```" markers removed and the rest stripped. */
  lemma ExtractBare(text: string, a: nat, b: nat)
    requires FirstBlock(PyFolding, JsonTag, text, 0).None?
    requires FirstBlock(PyFolding, BareFence, text, 0) == Some((a, b))
    ensures a + 6 <= b <= |text| && FenceAt(text, a) && FenceAt(text, b - 3)
    ensures ExtractFirstJson(text) == Trim(text[a + 3..b - 3], IsPyWhitespace)
  {
    FenceStageBare(PyFolding, false, IsPyWhitespace, text, a, b);
  }

  /** With no block and no `{`, the result is the stripped text. */
  lemma ExtractPlain(text: string)
    requires FirstBlock(PyFolding, BareFence, text, 0).None? && '{' !in text
    ensures ExtractFirstJson(text) == Trim(text, IsPyWhitespace)
  {
    FenceStageNone(PyFolding, false, IsPyWhitespace, text);
  }

  /** With no block, the first balanced object from the first `{`, or the rest of the text when
      the depth never returns to zero. */
  lemma ExtractBraces(text: string, first: nat)
    requires FirstBlock(PyFolding, BareFence, text, 0).None?
    requires first < |text| && text[first] == '{' && '{' !in text[..first]
    ensures var r := ExtractFirstJson(text);
      && first + |r| <= |text| && r == text[first..first + |r|]
      && (IsBalancedObject(r) || (r == text[first..] && forall k :: 0 < k <= |r| ==> Depth(r[..k]) > 0))
  {
    FenceStageNone(PyFolding, false, IsPyWhitespace, text);
    assert IndexOf(text, '{') == Some(first) by {
      assert forall i :: 0 <= i < first ==> text[i] == text[..first][i];
    }
  }

  /** The two implementations agree on a text without backticks that holds a `{`. */
  lemma TwinsAgreeOnBraces(text: string)
    requires '`' !in text && '{' in text
    ensures ExtractFirstJson(text) == AiService.ExtractFirstJson(text)
  {
    NoBacktickNoBlock(PyFolding, BareFence, text);
    NoBacktickNoBlock(JsFolding, BareFence, text);
    FenceStageNone(PyFolding, false, IsPyWhitespace, text);
    FenceStageNone(JsFolding, true, IsJsWhitespace, text);
  }

  /** Without backticks and braces, Python strips the text and TypeScript returns it as is, so
      the two differ exactly when the text has Python whitespace at either end. */
  lemma TwinsDifferOnPlainText(text: string)
    requires '`' !in text && '{' !in text
    ensures AiService.ExtractFirstJson(text) == text
    ensures ExtractFirstJson(text) == Trim(text, IsPyWhitespace)
    ensures ExtractFirstJson(text) != AiService.ExtractFirstJson(text)
      <==> |text| > 0 && (IsPyWhitespace(text[0]) || IsPyWhitespace(text[|text| - 1]))
  {
    NoBacktickNoBlock(PyFolding, BareFence, text);
    NoBacktickNoBlock(JsFolding, BareFence, text);
    FenceStageNone(PyFolding, false, IsPyWhitespace, text);
    FenceStageNone(JsFolding, true, IsJsWhitespace, text);
    if |text| > 0 && !IsPyWhitespace(text[0]) && !IsPyWhitespace(text[|text| - 1]) {
      assert AllWhitespace([], IsPyWhitespace);
      TrimPadded([], text, [], IsPyWhitespace);
      assert [] + text + [] == text;
    }
  }

  /** The tag "```jſon" (with U+017F) opens a json-tagged block for Python but only a bare
      block for TypeScript: Python returns the object, TypeScript keeps the tag's letters in
      front of it. */
  lemma TwinsDifferOnLongS(j: string)
    requires |j| > 0 && j[0] == '{' && IsBalancedObject(j) && '`' !in j
    ensures ExtractFirstJson("```j\U{017F}on" + "\n" + j + "\n```") == j
    ensures AiService.ExtractFirstJson("```j\U{017F}on" + "\n" + j + "\n```") == "j\U{017F}on\n" + j
  {
    BalancedObjectEnds(j);
    LongSTag();
    WrappedBlock(PyFolding, false, IsPyWhitespace, "```j\U{017F}on", j);
    LongSBare(j);
  }

  lemma LongSBare(j: string)
    requires |j| >= 2 && j[|j| - 1] == '}' && '`' !in j
    ensures AiService.ExtractFirstJson("```j\U{017F}on" + "\n" + j + "\n```") == "j\U{017F}on\n" + j
  {
    var tag := "```j\U{017F}on";
    var mid := "\n" + j + "\n";
    LongSTag();
    LongSPieces(j);
    SingleBareBlock(JsFolding, true, IsJsWhitespace, tag, mid);
    LongSTrim(j);
  }

  lemma LongSTrim(j: string)
    requires |j| >= 2 && j[|j| - 1] == '}'
    ensures Trim([] + ("j\U{017F}on\n" + j) + "\n", IsJsWhitespace) == "j\U{017F}on\n" + j
  {
    assert AllWhitespace("\n", IsJsWhitespace) && AllWhitespace([], IsJsWhitespace);
    TrimPadded([], "j\U{017F}on\n" + j, "\n", IsJsWhitespace);
  }

  /** The tag with U+017F folds to "```json" in Python only. */
  lemma LongSTag()
    ensures var tag := "```j\U{017F}on";
      && |tag| == 7 && FenceAt(tag, 0) && '`' !in tag[3..] && tag[3..] == "j\U{017F}on"
      && TagAt(PyFolding, tag, 0) && !TagAt(JsFolding, tag, 0)
  {
  }

  lemma LongSPieces(j: string)
    requires '`' !in j
    ensures var tag := "```j\U{017F}on";
      var mid := "\n" + j + "\n";
      && tag + "\n" + j + "\n```" == tag + mid + "```"
      && '`' !in mid
      && tag[3..] + mid == [] + ("j\U{017F}on\n" + j) + "\n"
  {
    var mid := "\n" + j + "\n";
    assert forall i :: 0 < i < |mid| - 1 ==> mid[i] == j[i - 1];
    assert "```j\U{017F}on"[3..] == "j\U{017F}on";
  }

  // ---------------------------------------------------------------------------------------
  // validate_graph

  /** The endpoint after `if isinstance(src, dict): src = src.get("id")`: a string stays, an
      object is replaced by its `id` (None when it has none), a missing key is None. */
  function Resolve(p: Option<Endpoint>): (r: Option<string>)
    ensures p.Some? && p.value.Ref? ==> r == Some(p.value.name)
    ensures p.Some? && p.value.ObjRef? ==> r == p.value.objId
    ensures p.None? || p.value.Scalar? ==> r.None?
  {
    match p
    case Some(Ref(name)) => Some(name)
    case Some(ObjRef(objId)) => objId
    case _ => None
  }

  /** `src in node_ids and tgt in node_ids`. */
  function KeepEdge(ids: set<string>): RawEdge -> bool {
    (e: RawEdge) => Resolve(e.source).Some? && Resolve(e.source).value in ids
                 && Resolve(e.target).Some? && Resolve(e.target).value in ids
  }

  /** The kept edge: resolved endpoints, `relation` defaulting to "", `id` kept. */
  function Rebuild(e: RawEdge): GraphEdge {
    GraphEdge(Resolve(e.source).GetOr(""), Resolve(e.target).GetOr(""), Some(e.relation.GetOr("")), e.id)
  }

  /** `validate_graph`: missing `nodes` and `edges` keys read as empty lists. */
  function ValidateGraph(raw: RawGraph): (g: GraphData)
    ensures g.nodes == raw.nodes.GetOr([]) && WellFormed(g)
    ensures forall k :: 0 <= k < |g.edges| ==> g.edges[k].relation.Some?
  {
    var nodes := raw.nodes.GetOr([]);
    var edges := raw.edges.GetOr([]);
    var ids := NodeIds(nodes);
    var kept := FilterMap(edges, KeepEdge(ids), Rebuild);
    assert forall k :: 0 <= k < |kept| ==> KeepEdge(ids)(edges[KeptIndices(edges, KeepEdge(ids))[k]]);
    GraphData(nodes, kept)
  }

  /** The kept edges are exactly those whose resolved endpoints are both node ids, in order,
      with the relation defaulted and the `id` preserved. */
  lemma ValidatedEdges(raw: RawGraph)
    ensures var g := ValidateGraph(raw);
      var es := raw.edges.GetOr([]);
      var ids := NodeIds(raw.nodes.GetOr([]));
      var idx := KeptIndices(es, KeepEdge(ids));
      && |g.edges| == |idx|
      && (forall k :: 0 <= k < |idx| ==>
            g.edges[k].source == Resolve(es[idx[k]].source).value
            && g.edges[k].target == Resolve(es[idx[k]].target).value
            && g.edges[k].relation == Some(es[idx[k]].relation.GetOr(""))
            && g.edges[k].id == es[idx[k]].id)
      && (forall k, l :: 0 <= k < l < |idx| ==> idx[k] < idx[l])
      && (forall j :: 0 <= j < |es| ==>
            (j in idx <==> (Resolve(es[j].source).Some? && Resolve(es[j].source).value in ids
                         && Resolve(es[j].target).Some? && Resolve(es[j].target).value in ids)))
  {
  }

  /** Without a `nodes` key every edge is dropped; without an `edges` key there are none. */
  lemma MissingKeys(raw: RawGraph)
    ensures raw.nodes.None? ==> ValidateGraph(raw) == GraphData([], [])
    ensures raw.edges.None? ==> ValidateGraph(raw).edges == []
  {
    if raw.nodes.None? {
      var es := raw.edges.GetOr([]);
      assert NodeIds([]) == {};
      FilterMapNoneKept(es, KeepEdge({}), Rebuild);
    }
  }

  /** Validating a validated graph again changes nothing. */
  lemma ValidateIdempotent(raw: RawGraph)
    ensures ValidateGraph(EmbedGraph(ValidateGraph(raw))) == ValidateGraph(raw)
  {
    RevalidateClean(ValidateGraph(raw));
  }

  /** A well-formed graph whose edges all carry a relation passes validation unchanged. */
  lemma RevalidateClean(g: GraphData)
    requires WellFormed(g) && forall k :: 0 <= k < |g.edges| ==> g.edges[k].relation.Some?
    ensures ValidateGraph(EmbedGraph(g)) == g
  {
    var es := EmbedGraph(g).edges.value;
    var ids := NodeIds(g.nodes);
    assert forall j :: 0 <= j < |es| ==> KeepEdge(ids)(es[j]);
    FilterMapAllKept(es, KeepEdge(ids), Rebuild);
    assert FilterMap(es, KeepEdge(ids), Rebuild) == g.edges;
  }

  /** An object endpoint counts as its `id`: the edge given with objects is kept exactly when
      the same edge given with strings is, and yields the same graph edge. */
  lemma ObjectEndpointsResolve(ids: set<string>, s: string, t: string, rel: Option<string>, id: Option<string>)
    ensures var byObj := RawEdge(Some(ObjRef(Some(s))), Some(ObjRef(Some(t))), rel, id);
      var byRef := RawEdge(Some(Ref(s)), Some(Ref(t)), rel, id);
      && KeepEdge(ids)(byObj) == KeepEdge(ids)(byRef)
      && Rebuild(byObj) == Rebuild(byRef)
  {
  }

  /** TypeScript drops an edge given with object endpoints that Python keeps. */
  lemma TwinsDifferOnObjectEndpoints(ids: set<string>, s: string, t: string)
    requires s in ids && t in ids
    ensures var e := RawEdge(Some(ObjRef(Some(s))), Some(ObjRef(Some(t))), None, None);
      KeepEdge(ids)(e) && !AiService.KeepEdge(ids)(e)
  {
  }

  // ---------------------------------------------------------------------------------------
  // The report normalisation in verify

  /** The object `verify` returns. Falsy list fields become `[]` and a falsy suggestion `""`;
      truthy values of any type pass through unchanged. */
  datatype VerifyReply = VerifyReply(
    validityScore: int,
    completenessScore: int,
    feedback: Value,
    missingEntities: Value,
    suggestions: Value)

  /** Python truthiness of a parsed value. */
  predicate Truthy(v: Value) {
    match v
    case Null => false
    case Bool(b) => b
    case Num(n) => n != 0
    case Str(s) => s != []
    case Arr(items) => items != []
    case Obj(size) => size != 0
  }

  /** The error `int(None)` raises. */
  const IntOfNone := "int() argument must be a string, a bytes-like object or a real number, not 'NoneType'"

  /** `int(obj.get(key, 0))`: a missing key gives 0, `null` makes `int(None)` raise. */
  function IntOrZero(s: Option<Score>): (r: Result<int, string>)
    ensures r.Err? <==> s == Some(NullScore)
    ensures s.None? ==> r == Ok(0)
    ensures s.Some? && s.value.IntScore? ==> r == Ok(s.value.n)
  {
    match s
    case None => Ok(0)
    case Some(NullScore) => Err(IntOfNone)
    case Some(IntScore(n)) => Ok(n)
  }

  /** `obj.get(key, default) or default`. */
  function OrDefault(v: Option<Value>, default: Value): (r: Value)
    ensures v.Some? && Truthy(v.value) ==> r == v.value
    ensures v.None? || !Truthy(v.value) ==> r == default
  {
    if v.Some? && Truthy(v.value) then v.value else default
  }

  /** The response of `verify` for a parsed reply; a `null` score fails the request. */
  function NormalizeVerify(raw: RawVerification): (r: Result<VerifyReply, string>)
    ensures r.Err? <==> raw.validityScore == Some(NullScore) || raw.completenessScore == Some(NullScore)
  {
    match IntOrZero(raw.validityScore)
    case Err(e) => Err(e)
    case Ok(validity) =>
      match IntOrZero(raw.completenessScore)
      case Err(e) => Err(e)
      case Ok(completeness) =>
        Ok(VerifyReply(
          validity,
          completeness,
          OrDefault(raw.feedback, Arr([])),
          OrDefault(raw.missingEntities, Arr([])),
          OrDefault(raw.suggestions, Str(""))))
  }

  /** Missing scores become 0, falsy lists `[]` and a falsy suggestion `""`; present scores
      and truthy values pass through. */
  lemma NormalizeDefaults(raw: RawVerification)
    requires raw.validityScore != Some(NullScore) && raw.completenessScore != Some(NullScore)
    ensures var r := NormalizeVerify(raw).value;
      && (raw.validityScore.None? ==> r.validityScore == 0)
      && (raw.completenessScore.None? ==> r.completenessScore == 0)
      && (raw.feedback.None? || !Truthy(raw.feedback.value) ==> r.feedback == Arr([]))
      && (raw.missingEntities.None? || !Truthy(raw.missingEntities.value) ==> r.missingEntities == Arr([]))
      && (raw.suggestions.None? || !Truthy(raw.suggestions.value) ==> r.suggestions == Str(""))
      && (raw.validityScore.Some? ==> r.validityScore == raw.validityScore.value.n)
      && (raw.completenessScore.Some? ==> r.completenessScore == raw.completenessScore.value.n)
      && (raw.feedback.Some? && Truthy(raw.feedback.value) ==> r.feedback == raw.feedback.value)
      && (raw.missingEntities.Some? && Truthy(raw.missingEntities.value) ==> r.missingEntities == raw.missingEntities.value)
      && (raw.suggestions.Some? && Truthy(raw.suggestions.value) ==> r.suggestions == raw.suggestions.value)
  {
  }

  /** The reply as the TypeScript record, when its list fields are lists and its suggestion
      a string. */
  function AsResult(r: VerifyReply): Option<VerificationResult> {
    if r.feedback.Arr? && r.missingEntities.Arr? && r.suggestions.Str? then
      Some(VerificationResult(r.validityScore, r.completenessScore, r.feedback.items, r.missingEntities.items, r.suggestions.s))
    else None
  }

  /** On a report written out in full, both normalisations give the same report back. */
  lemma TwinsAgreeOnFullReport(v: VerificationResult)
    ensures NormalizeVerify(AiService.EmbedVerification(v)).Ok?
    ensures AsResult(NormalizeVerify(AiService.EmbedVerification(v)).value) == Some(v)
    ensures AiService.NormalizeVerification(AiService.EmbedVerification(v)) == v
  {
  }

  /** A `null` score: TypeScript reads it as 0, Python fails the request. */
  lemma TwinsDifferOnNullScore(raw: RawVerification)
    requires raw.validityScore == Some(NullScore)
    ensures AiService.NormalizeVerification(raw).validityScore == 0
    ensures NormalizeVerify(raw).Err?
  {
  }

  /** A non-list truthy `feedback`: TypeScript replaces it by `[]`, Python passes it through. */
  lemma TwinsDifferOnTextFeedback(raw: RawVerification, text: string)
    requires raw.validityScore != Some(NullScore) && raw.completenessScore != Some(NullScore)
    requires raw.feedback == Some(Str(text)) && text != []
    ensures AiService.NormalizeVerification(raw).feedback == []
    ensures NormalizeVerify(raw).value.feedback == Str(text)
  {
  }
}
