/** The front end's reshaping of proximity results for the D3 sunburst
    chart (frontend/components/Proximity.js): a nested JSON object whose
    leaves are counts becomes a tree of `{name, children}` nodes, one node
    per key, with each count as a childless node under its key. */
module ProximityTree {
  import opened Wrappers

  /** The JSON the back end sends: a number, or an object whose entries are
      listed in `Object.keys` order. */
  datatype Json = Num(n: int) | Obj(entries: seq<(string, Json)>)

  /** A node's `name`: an object key or a count. */
  datatype Name = Key(key: string) | Count(count: int)

  /** A `{"name": ..., "children": ...}` object. */
  datatype Node = Node(name: Name, children: Children)

  /** The value of `children`: a single node (for a count below a key) or an
      array of nodes. */
  datatype Children = One(node: Node) | Many(nodes: seq<Node>)

  const ROOT_NAME := "Proximity Analysis"

  /** Reads the JSON back from a helper's value: a single node is a count,
      an array is an object keyed by the nodes' names. */
  function Recover(c: Children): Json
    decreases c
  {
    match c
    case One(node) => if node.name.Count? then Num(node.name.count) else Num(0)
    case Many(nodes) =>
      Obj(seq(|nodes|, i requires 0 <= i < |nodes| => RecoverNode(c, i)))
  }

  function RecoverNode(c: Children, i: nat): (string, Json)
    requires c.Many? && i < |c.nodes|
    decreases c, 0
  {
    assert c.nodes[i] in c.nodes;
    (if c.nodes[i].name.Key? then c.nodes[i].name.key else "", Recover(c.nodes[i].children))
  }

  /** `getD3ProximityAnalysisResultsHelper(obj)`: a number becomes the node
      `{"name": obj, "children": []}`; an object becomes the array of its
      keys' nodes, each holding the helper's value for its entry. Nothing is
      lost: every key, its position and every count can be read back. */
  function Helper(obj: Json): (r: Children)
    ensures obj.Num? ==> r == One(Node(Count(obj.n), Many([])))
    ensures obj.Obj? ==> r.Many? && |r.nodes| == |obj.entries|
    ensures obj.Obj? ==> forall i :: 0 <= i < |obj.entries| ==> r.nodes[i].name == Key(obj.entries[i].0)
    ensures Recover(r) == obj
    decreases obj
  {
    match obj
    case Num(n) => One(Node(Count(n), Many([])))
    case Obj(entries) =>
      var r := Many(seq(|entries|, i requires 0 <= i < |entries| => Entry(obj, i)));
      assert forall i :: 0 <= i < |entries| ==> RecoverNode(r, i) == entries[i];
      assert Recover(r).entries == entries;
      r
  }

  /** The node of one entry of an object: its key and the helper's value. */
  function Entry(obj: Json, i: nat): (r: Node)
    requires obj.Obj? && i < |obj.entries|
    ensures r.name == Key(obj.entries[i].0)
    ensures Recover(r.children) == obj.entries[i].1
    decreases obj, 0
  {
    assert obj.entries[i] in obj.entries;
    Node(Key(obj.entries[i].0), Helper(obj.entries[i].1))
  }

  /** `getD3ProximityAnalysisResults(obj)`: `null` for an object without
      keys (and for a number, which has none); otherwise the root node
      named "Proximity Analysis" over the helper's value. */
  function Results(obj: Json): (r: Option<Node>)
    ensures r.None? <==> obj.Num? || |obj.entries| == 0
    ensures r.Some? ==> r.value.name == Key(ROOT_NAME) && r.value.children == Helper(obj)
    ensures r.Some? ==> Recover(r.value.children) == obj
  {
    if obj.Num? || |obj.entries| == 0 then None
    else Some(Node(Key(ROOT_NAME), Helper(obj)))
  }

  /** Hence different results give different charts. */
  lemma HelperInjective(a: Json, b: Json)
    requires Helper(a) == Helper(b)
    ensures a == b
  {
  }
}
