/** The records of the application (types.ts, and their Pydantic twins in backend/app.py),
    without the fields the force layout adds, and the already-parsed JSON shapes that the
    validation and normalisation code reads. */
module Types {
  import opened Base

  /** A graph node. `caption` is the field `label` and `nodeType` the field `type` (both words
      are reserved in Dafny); `group` and `val` are optional. */
  datatype GraphNode = GraphNode(
    id: string,
    caption: string,
    nodeType: string,
    group: Option<int>,
    val: Option<real>)

  /** A graph edge between two node ids. The TypeScript validator copies `relation` from the
      reply without checking it, so it may be absent there; the Python validator always sets
      it. The optional `id` is kept only by the Python validator. */
  datatype GraphEdge = GraphEdge(
    source: string,
    target: string,
    relation: Option<string>,
    id: Option<string>)

  datatype GraphData = GraphData(nodes: seq<GraphNode>, edges: seq<GraphEdge>)

  /** The graph with no nodes and no edges, the controller's initial graph. */
  const EmptyGraph := GraphData([], [])

  /** The ids of the nodes. */
  function NodeIds(nodes: seq<GraphNode>): (ids: set<string>)
    ensures forall i :: 0 <= i < |nodes| ==> nodes[i].id in ids
    ensures forall x :: x in ids ==> exists i :: 0 <= i < |nodes| && nodes[i].id == x
  {
    set i | 0 <= i < |nodes| :: nodes[i].id
  }

  /** Referential integrity: every edge joins two ids of the graph's nodes. */
  predicate WellFormed(g: GraphData) {
    forall k :: 0 <= k < |g.edges| ==> g.edges[k].source in NodeIds(g.nodes) && g.edges[k].target in NodeIds(g.nodes)
  }

  /** The six statuses the controller sets. types.ts declares IDLE, PROCESSING, SUCCESS and
      ERROR; App.tsx also sets VERIFYING and OPTIMIZING. */
  datatype Status = Idle | Processing | Verifying | Optimizing | Success | Error

  /** An already-parsed JSON value, as far as the normalisation code distinguishes values.
      Numbers are integers; an object is known only by its number of keys. */
  datatype Value =
    | Null
    | Bool(b: bool)
    | Num(n: int)
    | Str(s: string)
    | Arr(items: seq<Value>)
    | Obj(size: nat)

  /** The audit report shown in the verification panel. Array fields hold whatever the reply's
      arrays held. */
  datatype VerificationResult = VerificationResult(
    validityScore: int,
    completenessScore: int,
    feedback: seq<Value>,
    missingEntities: seq<Value>,
    suggestions: string)

  /** A score field of the parsed reply: `null` or an integer. */
  datatype Score = NullScore | IntScore(n: int)

  /** The parsed verification reply; `None` is a missing key. */
  datatype RawVerification = RawVerification(
    validityScore: Option<Score>,
    completenessScore: Option<Score>,
    feedback: Option<Value>,
    missingEntities: Option<Value>,
    suggestions: Option<Value>)

  /** An edge endpoint as the reply gives it: a string, an object with or without an `id`
      string, or another scalar (number, boolean, null). */
  datatype Endpoint = Ref(name: string) | ObjRef(objId: Option<string>) | Scalar

  /** A parsed edge; `None` is a missing key. */
  datatype RawEdge = RawEdge(
    source: Option<Endpoint>,
    target: Option<Endpoint>,
    relation: Option<string>,
    id: Option<string>)

  /** The parsed graph reply; `None` is a missing key. Nodes are taken as records. */
  datatype RawGraph = RawGraph(nodes: Option<seq<GraphNode>>, edges: Option<seq<RawEdge>>)

  /** A graph written back out as a reply, endpoints as strings. */
  function EmbedEdge(e: GraphEdge): RawEdge {
    RawEdge(Some(Ref(e.source)), Some(Ref(e.target)), e.relation, e.id)
  }

  function EmbedGraph(g: GraphData): (r: RawGraph)
    ensures r.nodes == Some(g.nodes) && r.edges.Some? && |r.edges.value| == |g.edges|
    ensures forall k :: 0 <= k < |g.edges| ==> r.edges.value[k] == EmbedEdge(g.edges[k])
  {
    RawGraph(Some(g.nodes), Some(seq(|g.edges|, k requires 0 <= k < |g.edges| => EmbedEdge(g.edges[k]))))
  }
}
