/** The Core IR 0.6 data model: a flat node list over a constant pool. */
module CoreIr {
  type Byte = x: int | 0 <= x < 256

  /** A 256-bit identity. The 32-byte length matters only to the codec, which states it. */
  type Hash = seq<Byte>

  const U64: nat := 0x1_0000_0000_0000_0000

  datatype Option<+T> = None | Some(value: T)

  datatype Ref = NodeRef(i: nat) | PoolRef(i: nat)

  datatype PoolEntry = PoolEntry(defHash: Hash, payload: seq<Byte>)

  datatype Node =
    | CCall(target: Hash, args: seq<Ref>, name: seq<Byte>)
    | CIf(cond: Ref, then_: Ref, else_: Ref)
    | CDeterminate
    | CBlock
    | CEnd(value: Ref)

  /** The version string is a constant of the reader and is not modelled. */
  datatype Bundle = Bundle(pool: seq<PoolEntry>, nodes: seq<Node>, result: Ref)

  /** The references a node reads. A CIf's `then`/`else` name arms, not values. */
  function Uses(n: Node): seq<Ref> {
    match n
    case CCall(_, args, _) => args
    case CIf(cond, _, _) => [cond]
    case CEnd(value) => [value]
    case CDeterminate => []
    case CBlock => []
  }

  predicate InRange(b: Bundle, r: Ref, bound: nat) {
    match r
    case NodeRef(j) => j < bound
    case PoolRef(p) => p < |b.pool|
  }

  /** Every reference names an earlier node or a pool entry: what the decoder enforces. */
  ghost predicate Topological(b: Bundle) {
    && (forall u, r :: 0 <= u < |b.nodes| && r in Uses(b.nodes[u]) ==> InRange(b, r, u))
    && InRange(b, b.result, |b.nodes|)
  }

  /** Every read reference names some node or pool entry: what indexing needs. */
  ghost predicate RefsResolve(b: Bundle) {
    && (forall u, r :: 0 <= u < |b.nodes| && r in Uses(b.nodes[u]) ==> InRange(b, r, |b.nodes|))
    && InRange(b, b.result, |b.nodes|)
  }
}
