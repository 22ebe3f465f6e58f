/** The parsed SGF game tree, as the SGF parser hands it to the application:
    every node has a property map (each property holds a non-empty list of
    values, the first of which the application reads), an ordered list of
    children (child 0 is the main line) and an optional list of tags. */
module GameTree {

  /** The values of one property; an SGF property always carries at least one value. */
  type PropValues = s: seq<string> | |s| > 0 witness [""]

  /** `node.data`: property identifier (`B`, `W`, `C`, `AB`, …) to its values. */
  type Data = map<string, PropValues>

  datatype Node = Node(data: Data, children: seq<Node>, tags: seq<string>)

  /** The moves a node contributes, `B[0]` before `W[0]`. */
  function NodeMoves(d: Data): (ms: seq<string>)
    ensures |ms| == (if "B" in d then 1 else 0) + (if "W" in d then 1 else 0)
  {
    (if "B" in d then [d["B"][0]] else []) + (if "W" in d then [d["W"][0]] else [])
  }

  /** The first-child chain starting at `n` (the main line). */
  function MainLine(n: Node): (line: seq<Node>)
    ensures |line| >= 1 && line[0] == n
    decreases n
  {
    if |n.children| == 0 then [n] else [n] + MainLine(n.children[0])
  }

  /** The node data along a list of nodes. */
  function DataAlong(v: seq<Node>): (ds: seq<Data>)
    ensures |ds| == |v| && forall i :: 0 <= i < |v| ==> ds[i] == v[i].data
  {
    seq(|v|, i requires 0 <= i < |v| => v[i].data)
  }

  /** The moves of a path of nodes, each node's `B[0]` before its `W[0]`. */
  function PathMoves(path: seq<Data>): seq<string>
    decreases |path|
  {
    if |path| == 0 then [] else NodeMoves(path[0]) + PathMoves(path[1..])
  }
}
