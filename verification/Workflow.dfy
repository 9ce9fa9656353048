/** The workflow entities every part of the engine shares: JSON values, node types and edges. */
module Workflow {

  datatype Option<+T> = None | Some(value: T)

  /** A JSON value as node payloads and workflow state carry it. */
  datatype Value =
    | Null
    | Bool(b: bool)
    | Int(i: int)
    | Text(t: string)
    | List(items: seq<Value>)
    | Dict(fields: map<string, Value>)

  /** A Python dict at the top level of a payload or of the state. */
  type Payload = map<string, Value>

  datatype NodeType = Start | Agent | Condition | SetVariable | HttpRequest | End | Plugin(name: string)

  /** The node list, keyed by id. */
  type Nodes = map<string, NodeType>

  ghost function Ends(nodes: Nodes): set<string> {
    set n | n in nodes && nodes[n] == End
  }

  /** The engine's typing: routers choose a branch, other nodes do not. */
  ghost predicate Typed(nodes: Nodes, n: string, branch: Option<int>) {
    n in nodes && (nodes[n] == Condition <==> branch.Some?)
  }

  datatype Edge = Edge(id: string, source: string, target: string, sourceHandle: Option<string>)

  /** Decimal rendering of a branch index, as an f-string prints it. */
  function Decimal(n: nat): string {
    var digit := ['0', '1', '2', '3', '4', '5', '6', '7', '8', '9'][n % 10];
    if n < 10 then [digit] else Decimal(n / 10) + [digit]
  }

  function IntText(i: int): string {
    if i < 0 then "-" + Decimal(-i) else Decimal(i)
  }

  /** The handle a routing node's branch leaves through. */
  function Handle(nodeId: string, branch: int): string {
    "source_" + nodeId + "_" + IntText(branch)
  }
}
