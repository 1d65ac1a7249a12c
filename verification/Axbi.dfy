/** The second, independent reader of canonical bytes, which builds a value tree, and its agreement with the first. */
module Axbi {
  import opened CoreIr
  import opened Varint
  import opened Codec
  import opened CanonReader

  datatype Value =
    | Int(n: int)
    | Str(text: string)
    | List(items: seq<Value>)
    | Tuple(items: seq<Value>)
    | Ctor(tag: string, fields: seq<Value>)

  function HexDigit(d: int): char
    requires 0 <= d < 16
  {
    "0123456789abcdef"[d]
  }

  function HexStr(bytes: seq<Byte>): string {
    if bytes == [] then "" else [HexDigit(bytes[0] / 16), HexDigit(bytes[0] % 16)] + HexStr(bytes[1..])
  }

  function MapOver<S, T>(f: S -> T, xs: seq<S>): seq<T> {
    if xs == [] then [] else [f(xs[0])] + MapOver(f, xs[1..])
  }

  function IntOf(b: Byte): Value {
    Int(b)
  }

  // ----- the parser's functions -----

  /** The text a UTF-8 byte string stands for is taken from outside. */
  type Text = seq<Byte> -> string

  function ReadEdge(b: seq<Byte>, pos: nat, nodeIdx: nat, poolLen: nat): Parse<Value> {
    match Decode(b, pos)
    case Err(e) => Err(e)
    case Ok(tagged, p) =>
      var idx := tagged / 2 % U32;
      if tagged % 2 == 1 then (if idx >= poolLen then Err(OutOfRange) else Ok(Tuple([Str("pool"), Int(idx)]), p))
      else if idx >= nodeIdx then Err(OutOfRange) else Ok(Tuple([Str("node"), Int(idx)]), p)
  }

  function EdgeItem(b: seq<Byte>, nodeIdx: nat, poolLen: nat): Item<Value> {
    (k: nat, pos: nat) => ReadEdge(b, pos, nodeIdx, poolLen)
  }

  function ParseEntry(b: seq<Byte>, pos: nat): Parse<Value> {
    match Take(b, pos, 32)
    case Err(e) => Err(e)
    case Ok(hash, p) =>
      match DecodeBytes(b, p)
      case Err(e) => Err(e)
      case Ok(payload, end) => Ok(Tuple([Str(HexStr(hash)), List(MapOver(IntOf, payload))]), end)
  }

  function PairItem(b: seq<Byte>): Item<Value> {
    (k: nat, pos: nat) => ParseEntry(b, pos)
  }

  function ParseCall(o: Outside, text: Text, b: seq<Byte>, pos: nat, i: nat, poolLen: nat): Parse<Value> {
    match DecodeBytes(b, pos)
    case Err(e) => Err(e)
    case Ok(name, p1) =>
      if !o.utf8(name) then Err(BadUtf8) else
      match Take(b, p1, 32)
      case Err(e) => Err(e)
      case Ok(identity, p2) =>
        match Decode(b, p2)
        case Err(e) => Err(e)
        case Ok(argc, p3) =>
          match DecodeList(EdgeItem(b, i, poolLen), p3, 0, argc)
          case Err(e) => Err(e)
          case Ok(args, end) => Ok(Ctor("CCall", [Str(text(name)), Str(HexStr(identity)), List(args)]), end)
  }

  function ParseNode(o: Outside, text: Text, b: seq<Byte>, pos: nat, i: nat, poolLen: nat): Parse<Value> {
    match Decode(b, pos)
    case Err(e) => Err(e)
    case Ok(kind, p) =>
      if kind == 0 then ParseCall(o, text, b, p, i, poolLen)
      else if kind == 1 then
        (match DecodeList(EdgeItem(b, i, poolLen), p, 0, 3)
         case Err(e) => Err(e)
         case Ok(edges, end) => Ok(Ctor("CIf", edges), end))
      else if kind == 2 then Ok(Ctor("CDeterminate", []), p)
      else if kind == 3 then Ok(Ctor("CBlock", []), p)
      else if kind == 4 then
        (match ReadEdge(b, p, i, poolLen)
         case Err(e) => Err(e)
         case Ok(value, end) => Ok(Ctor("CEnd", [value]), end))
      else Err(BadKind)
  }

  function CtorItem(o: Outside, text: Text, b: seq<Byte>, poolLen: nat): Item<Value> {
    (i: nat, pos: nat) => ParseNode(o, text, b, pos, i, poolLen)
  }

  /** Both counts are cut to 32 bits where they bound an index, and bytes after the result are not looked at. */
  function ParseBody(o: Outside, text: Text, b: seq<Byte>, pos: nat, pool: seq<Value>, poolLen: nat): Parse<Value> {
    match Decode(b, pos)
    case Err(e) => Err(e)
    case Ok(n, p1) =>
      match DecodeList(CtorItem(o, text, b, poolLen), p1, 0, n % U32)
      case Err(e) => Err(e)
      case Ok(nodes, p2) =>
        match ReadEdge(b, p2, n % U32, poolLen)
        case Err(e) => Err(e)
        case Ok(result, end) => Ok(Tuple([List(pool), List(nodes), result]), end)
  }

  function ParseCanonical(o: Outside, text: Text, b: seq<Byte>): Parse<Value> {
    match Decode(b, 0)
    case Err(e) => Err(e)
    case Ok(count, p1) =>
      match DecodeList(PairItem(b), p1, 0, count)
      case Err(e) => Err(e)
      case Ok(pool, p2) => ParseBody(o, text, b, p2, pool, count % U32)
  }

  // ----- the tree of a bundle -----

  function RefTree(r: Ref): Value {
    match r
    case PoolRef(i) => Tuple([Str("pool"), Int(i)])
    case NodeRef(i) => Tuple([Str("node"), Int(i)])
  }

  function EntryTree(e: PoolEntry): Value {
    Tuple([Str(HexStr(e.defHash)), List(MapOver(IntOf, e.payload))])
  }

  function NodeTree(text: Text): Node -> Value {
    (n: Node) =>
      match n
      case CCall(target, args, name) =>
        Ctor("CCall", [Str(text(name)), Str(HexStr(target)), List(MapOver(RefTree, args))])
      case CIf(cond, then_, else_) => Ctor("CIf", [RefTree(cond), RefTree(then_), RefTree(else_)])
      case CDeterminate => Ctor("CDeterminate", [])
      case CBlock => Ctor("CBlock", [])
      case CEnd(value) => Ctor("CEnd", [RefTree(value)])
  }

  /** The value tree with the bundle's pool, nodes and result. */
  function TreeOf(text: Text, m: Bundle): Value {
    Tuple([List(MapOver(EntryTree, m.pool)), List(MapOver(NodeTree(text), m.nodes)), RefTree(m.result)])
  }

  // ----- agreement -----

  /** What `a` reads, `c` reads too, as the image under `f`. */
  ghost predicate Follows<S, T>(a: Item<S>, c: Item<T>, f: S -> T, bound: nat) {
    forall i: nat, pos: nat {:trigger a(i, pos)} ::
      i < bound && a(i, pos).Ok? ==> c(i, pos) == Ok(f(a(i, pos).value), a(i, pos).next)
  }

  lemma {:induction false} ListFollows<S, T>(a: Item<S>, c: Item<T>, f: S -> T, bound: nat, pos: nat, i: nat, n: nat)
    requires Follows(a, c, f, bound) && i + n <= bound && DecodeList(a, pos, i, n).Ok?
    ensures var Ok(xs, next) := DecodeList(a, pos, i, n); DecodeList(c, pos, i, n) == Ok(MapOver(f, xs), next)
    decreases n
  {
    if n > 0 {
      var Ok(x, p) := a(i, pos);
      ListFollows(a, c, f, bound, p, i + 1, n - 1);
      var rest := DecodeList(a, p, i + 1, n - 1).value;
      assert ([x] + rest)[1..] == rest;
    }
  }

  lemma EdgeFollows(b: seq<Byte>, pos: nat, nodes: nat, pool: nat)
    requires nodes <= U32 && pool <= U32 && DecodeRef(b, pos, nodes, pool).Ok?
    ensures var Ok(r, next) := DecodeRef(b, pos, nodes, pool); ReadEdge(b, pos, nodes, pool) == Ok(RefTree(r), next)
  {
  }

  lemma EdgesFollow(b: seq<Byte>, pos: nat, n: nat, nodes: nat, pool: nat)
    requires nodes <= U32 && pool <= U32 && DecodeRefs(b, pos, n, nodes, pool).Ok?
    ensures var Ok(rs, next) := DecodeRefs(b, pos, n, nodes, pool);
      DecodeList(EdgeItem(b, nodes, pool), pos, 0, n) == Ok(MapOver(RefTree, rs), next)
  {
    var a, c := RefItem(b, nodes, pool), EdgeItem(b, nodes, pool);
    forall i: nat, p: nat {:trigger a(i, p)} | a(i, p).Ok?
      ensures c(i, p) == Ok(RefTree(a(i, p).value), a(i, p).next)
    {
      EdgeFollows(b, p, nodes, pool);
    }
    ListFollows(a, c, RefTree, n, pos, 0, n);
  }

  lemma CallFollows(o: Outside, text: Text, b: seq<Byte>, pos: nat, i: nat, pool: nat)
    requires i <= U32 && pool <= U32 && DecodeCall(o, b, pos, i, pool).Ok?
    ensures var Ok(n, next) := DecodeCall(o, b, pos, i, pool);
      ParseCall(o, text, b, pos, i, pool) == Ok(NodeTree(text)(n), next)
  {
    var p1 := DecodeBytes(b, pos).next;
    var Ok(argc, p3) := Decode(b, Take(b, p1, 32).next);
    EdgesFollow(b, p3, argc, i, pool);
  }

  lemma NodeFollows(o: Outside, text: Text, b: seq<Byte>, pos: nat, i: nat, pool: nat)
    requires i <= U32 && pool <= U32 && DecodeNode(o, b, pos, i, pool).Ok?
    ensures var Ok(n, next) := DecodeNode(o, b, pos, i, pool);
      ParseNode(o, text, b, pos, i, pool) == Ok(NodeTree(text)(n), next)
  {
    var Ok(kind, p) := Decode(b, pos);
    if kind == 0 {
      CallFollows(o, text, b, p, i, pool);
    } else if kind == 1 {
      EdgesFollow(b, p, 3, i, pool);
      DecodeCount(RefItem(b, i, pool), p, 0, 3);
      MapOfThree(RefTree, DecodeRefs(b, p, 3, i, pool).value);
    } else if kind == 4 {
      EdgeFollows(b, p, i, pool);
    }
  }

  lemma MapOfThree<S, T>(f: S -> T, xs: seq<S>)
    requires |xs| == 3
    ensures MapOver(f, xs) == [f(xs[0]), f(xs[1]), f(xs[2])]
  {
    assert xs[1..][1..] == [xs[2]] && [xs[2]][1..] == [];
    assert MapOver(f, [xs[2]]) == [f(xs[2])];
    assert xs[1..][0] == xs[1];
  }

  lemma PoolFollows(b: seq<Byte>, pos: nat, n: nat)
    requires DecodeList(EntryItem(b), pos, 0, n).Ok?
    ensures var Ok(es, next) := DecodeList(EntryItem(b), pos, 0, n);
      DecodeList(PairItem(b), pos, 0, n) == Ok(MapOver(EntryTree, es), next)
  {
    ListFollows(EntryItem(b), PairItem(b), EntryTree, n, pos, 0, n);
  }

  lemma NodesFollow(o: Outside, text: Text, b: seq<Byte>, pos: nat, n: nat, pool: nat)
    requires n <= U32 && pool <= U32 && DecodeList(NodeItem(o, b, pool), pos, 0, n).Ok?
    ensures var Ok(ns, next) := DecodeList(NodeItem(o, b, pool), pos, 0, n);
      DecodeList(CtorItem(o, text, b, pool), pos, 0, n) == Ok(MapOver(NodeTree(text), ns), next)
  {
    var a, c := NodeItem(o, b, pool), CtorItem(o, text, b, pool);
    forall i: nat, p: nat {:trigger a(i, p)} | i < n && a(i, p).Ok?
      ensures c(i, p) == Ok(NodeTree(text)(a(i, p).value), a(i, p).next)
    {
      NodeFollows(o, text, b, p, i, pool);
    }
    ListFollows(a, c, NodeTree(text), n, pos, 0, n);
  }

  lemma ParseRest(o: Outside, text: Text, b: seq<Byte>, pool: seq<Value>, poolLen: nat, nodes: seq<Value>,
      result: Value, p2: nat, p3: nat, p4: nat, end: nat)
    requires |nodes| < U32
    requires Decode(b, p2) == Ok(|nodes|, p3)
    requires DecodeList(CtorItem(o, text, b, poolLen), p3, 0, |nodes|) == Ok(nodes, p4)
    requires ReadEdge(b, p4, |nodes|, poolLen) == Ok(result, end)
    ensures ParseBody(o, text, b, p2, pool, poolLen) == Ok(Tuple([List(pool), List(nodes), result]), end)
  {
    hide DecodeList, ReadEdge, Decode;
    assert |nodes| % U32 == |nodes|;
  }

  lemma ParseWhole(o: Outside, text: Text, b: seq<Byte>, pool: seq<Value>, p1: nat, p2: nat)
    requires |pool| < U32
    requires Decode(b, 0) == Ok(|pool|, p1)
    requires DecodeList(PairItem(b), p1, 0, |pool|) == Ok(pool, p2)
    ensures ParseCanonical(o, text, b) == ParseBody(o, text, b, p2, pool, |pool|)
  {
    hide DecodeList, ParseBody, Decode;
    assert |pool| % U32 == |pool|;
  }

  lemma {:induction false} MapCount<S, T>(f: S -> T, xs: seq<S>)
    ensures |MapOver(f, xs)| == |xs|
    decreases |xs|
  {
    if xs != [] {
      MapCount(f, xs[1..]);
    }
  }

  /** What the strict decoder reads, with counts that fit 32 bits. */
  predicate Fits32(o: Outside, b: seq<Byte>) {
    var m := DecodeBundle(o, b);
    m.Ok? && |m.value.pool| < U32 && |m.value.nodes| < U32
  }

  /** Whatever the strict decoder reads, with counts that fit 32 bits, this parser reads too, into the bundle's tree. */
  lemma ParsersAgree(o: Outside, text: Text, b: seq<Byte>)
    requires Fits32(o, b)
    ensures ParseCanonical(o, text, b) == Ok(TreeOf(text, DecodeBundle(o, b).value), |b|)
  {
    var m := DecodeBundle(o, b).value;
    var p1, p2, p3, p4 := DecodeParts(o, b);
    PoolFollows(b, p1, |m.pool|);
    NodesFollow(o, text, b, p3, |m.nodes|, |m.pool|);
    EdgeFollows(b, p4, |m.nodes|, |m.pool|);
    MapCount(EntryTree, m.pool);
    MapCount(NodeTree(text), m.nodes);
    var pool, nodes := MapOver(EntryTree, m.pool), MapOver(NodeTree(text), m.nodes);
    ParseWhole(o, text, b, pool, p1, p2);
    ParseRest(o, text, b, pool, |pool|, nodes, RefTree(m.result), p2, p3, p4, |b|);
  }

  // ----- the tree loses nothing -----

  /** `f` tells apart what `good` admits. */
  ghost predicate TellsApart<S(!new), T>(f: S -> T, good: S -> bool) {
    forall x, y :: good(x) && good(y) && f(x) == f(y) ==> x == y
  }

  lemma {:induction false} MapInjective<S(!new), T>(f: S -> T, good: S -> bool, xs: seq<S>, ys: seq<S>)
    requires TellsApart(f, good) && MapOver(f, xs) == MapOver(f, ys)
    requires (forall x :: x in xs ==> good(x)) && (forall y :: y in ys ==> good(y))
    ensures xs == ys
    decreases |xs|
  {
    if xs != [] && ys != [] {
      var s, t := MapOver(f, xs), MapOver(f, ys);
      assert f(xs[0]) == s[0] == t[0] == f(ys[0]) && xs[0] in xs && ys[0] in ys;
      assert MapOver(f, xs[1..]) == s[1..] == t[1..] == MapOver(f, ys[1..]);
      MapInjective(f, good, xs[1..], ys[1..]);
      assert xs == [xs[0]] + xs[1..] && ys == [ys[0]] + ys[1..];
    }
  }

  lemma HexUnfolds(xs: seq<Byte>)
    requires xs != []
    ensures var s := HexStr(xs);
      |s| >= 2 && s[0] == HexDigit(xs[0] / 16) && s[1] == HexDigit(xs[0] % 16) && s[2..] == HexStr(xs[1..])
  {
  }

  lemma DigitInjective(x: int, y: int)
    requires 0 <= x < 16 && 0 <= y < 16 && HexDigit(x) == HexDigit(y)
    ensures x == y
  {
    assert forall d :: 0 <= d < 16 ==> HexDigit(d) == (if d < 10 then '0' + d as char else 'a' + (d - 10) as char);
  }

  lemma {:induction false} HexInjective(xs: seq<Byte>, ys: seq<Byte>)
    requires HexStr(xs) == HexStr(ys)
    ensures xs == ys
    decreases |xs|
  {
    if xs != [] && ys != [] {
      var s, t := HexStr(xs), HexStr(ys);
      HexUnfolds(xs);
      HexUnfolds(ys);
      DigitInjective(xs[0] / 16, ys[0] / 16);
      DigitInjective(xs[0] % 16, ys[0] % 16);
      HexInjective(xs[1..], ys[1..]);
      assert xs == [xs[0]] + xs[1..] && ys == [ys[0]] + ys[1..];
    }
  }

  lemma EntryTreeInjective(x: PoolEntry, y: PoolEntry)
    requires EntryTree(x) == EntryTree(y)
    ensures x == y
  {
    var s, t := EntryTree(x).items, EntryTree(y).items;
    assert s[0] == t[0] && s[1] == t[1];
    HexInjective(x.defHash, y.defHash);
    MapInjective(IntOf, (b: Byte) => true, x.payload, y.payload);
  }

  lemma RefTreeInjective(x: Ref, y: Ref)
    requires RefTree(x) == RefTree(y)
    ensures x == y
  {
    var s, t := RefTree(x).items, RefTree(y).items;
    assert s[0] == t[0] && s[1] == t[1];
    assert "pool"[0] != "node"[0];
  }

  /** A call's name is UTF-8: what the decoders insist on. */
  predicate Named(o: Outside, n: Node) {
    n.CCall? ==> o.utf8(n.name)
  }

  lemma CallTreeInjective(o: Outside, text: Text, x: Node, y: Node)
    requires TellsApart(text, o.utf8) && Named(o, x) && Named(o, y) && x.CCall? && y.CCall?
    requires NodeTree(text)(x) == NodeTree(text)(y)
    ensures x == y
  {
    var s, t := NodeTree(text)(x).fields, NodeTree(text)(y).fields;
    assert s[0] == t[0] && s[1] == t[1] && s[2] == t[2];
    HexInjective(x.target, y.target);
    forall r, q | RefTree(r) == RefTree(q)
      ensures r == q
    {
      RefTreeInjective(r, q);
    }
    MapInjective(RefTree, (r: Ref) => true, x.args, y.args);
  }

  lemma NodeTreeInjective(o: Outside, text: Text, x: Node, y: Node)
    requires TellsApart(text, o.utf8) && Named(o, x) && Named(o, y) && NodeTree(text)(x) == NodeTree(text)(y)
    ensures x == y
  {
    TagsDiffer();
    assert Kind(x) == Kind(y);
    var s, t := NodeTree(text)(x).fields, NodeTree(text)(y).fields;
    match x {
      case CCall(_, _, _) => CallTreeInjective(o, text, x, y);
      case CIf(cond, then_, else_) =>
        assert s[0] == t[0] && s[1] == t[1] && s[2] == t[2];
        RefTreeInjective(cond, y.cond);
        RefTreeInjective(then_, y.then_);
        RefTreeInjective(else_, y.else_);
      case CDeterminate =>
      case CBlock =>
      case CEnd(value) =>
        assert s[0] == t[0];
        RefTreeInjective(value, y.value);
    }
  }

  lemma TagsDiffer()
    ensures "CCall" != "CIf" && "CCall" != "CDeterminate" && "CCall" != "CBlock" && "CCall" != "CEnd"
    ensures "CIf" != "CDeterminate" && "CIf" != "CBlock" && "CIf" != "CEnd"
    ensures "CDeterminate" != "CBlock" && "CDeterminate" != "CEnd" && "CBlock" != "CEnd"
  {
    assert "CCall"[1] == 'C' && "CIf"[1] == 'I' && "CDeterminate"[1] == 'D' && "CBlock"[1] == 'B' && "CEnd"[1] == 'E';
  }

  lemma NamesFit(o: Outside, m: Bundle)
    requires WellFormed(o, m)
    ensures forall n :: n in m.nodes ==> Named(o, n)
  {
    forall n | n in m.nodes
      ensures Named(o, n)
    {
      var i :| 0 <= i < |m.nodes| && m.nodes[i] == n;
      assert NodeFits(o, m.nodes[i], i, |m.pool|);
    }
  }

  /** The tree determines the bundle, whenever decoding UTF-8 tells valid strings apart. */
  lemma TreeInjective(o: Outside, text: Text, m: Bundle, w: Bundle)
    requires TellsApart(text, o.utf8) && WellFormed(o, m) && WellFormed(o, w)
    requires TreeOf(text, m) == TreeOf(text, w)
    ensures m == w
  {
    var s, t := TreeOf(text, m).items, TreeOf(text, w).items;
    assert s[0] == t[0] && s[1] == t[1] && s[2] == t[2];
    forall x, y | EntryTree(x) == EntryTree(y)
      ensures x == y
    {
      EntryTreeInjective(x, y);
    }
    MapInjective(EntryTree, (e: PoolEntry) => true, m.pool, w.pool);
    NamesFit(o, m);
    NamesFit(o, w);
    NodesTell(o, text, m.nodes, w.nodes);
    RefTreeInjective(m.result, w.result);
  }

  lemma NodesTell(o: Outside, text: Text, xs: seq<Node>, ys: seq<Node>)
    requires TellsApart(text, o.utf8) && MapOver(NodeTree(text), xs) == MapOver(NodeTree(text), ys)
    requires (forall n :: n in xs ==> Named(o, n)) && (forall n :: n in ys ==> Named(o, n))
    ensures xs == ys
  {
    var f, good := NodeTree(text), (n: Node) => Named(o, n);
    forall x, y | good(x) && good(y) && f(x) == f(y)
      ensures x == y
    {
      NodeTreeInjective(o, text, x, y);
    }
    MapInjective(f, good, xs, ys);
  }

  /** For payloads the strict decoder accepts, this parser's trees are equal exactly when the bytes are. */
  lemma TreesTellBytes(o: Outside, text: Text, b: seq<Byte>, c: seq<Byte>)
    requires TellsApart(text, o.utf8) && Fits32(o, b) && Fits32(o, c)
    ensures ParseCanonical(o, text, b) == ParseCanonical(o, text, c) <==> b == c
  {
    ParsersAgree(o, text, b);
    ParsersAgree(o, text, c);
    EncodeDecode(o, b);
    EncodeDecode(o, c);
    if ParseCanonical(o, text, b) == ParseCanonical(o, text, c) {
      TreeInjective(o, text, DecodeBundle(o, b).value, DecodeBundle(o, c).value);
    }
  }

  // ----- the loops -----

  method ReadEdges(b: seq<Byte>, start: nat, nodeIdx: nat, poolLen: nat, n: nat) returns (r: Parse<seq<Value>>)
    ensures r == DecodeList(EdgeItem(b, nodeIdx, poolLen), start, 0, n)
  {
    ghost var item := EdgeItem(b, nodeIdx, poolLen);
    var pos: nat, edges: seq<Value> := start, [];
    PrependNothing(edges, DecodeList(item, pos, 0, n));
    for k := 0 to n
      invariant Prepend(edges, DecodeList(item, pos, k, n - k)) == DecodeList(item, start, 0, n)
    {
      PrependStep(item, edges, pos, k, n - k);
      var one := ReadEdge(b, pos, nodeIdx, poolLen);
      if one.Err? {
        return Err(one.error);
      }
      edges, pos := edges + [one.value], one.next;
    }
    PrependNothing(edges, Ok([], pos));
    r := Ok(edges, pos);
  }

  method ReadEntry(b: seq<Byte>, pos: nat) returns (r: Parse<Value>)
    ensures r == ParseEntry(b, pos)
  {
    if pos + 32 > |b| {
      return Err(Truncated);
    }
    var hash := b[pos..pos + 32];
    var length := Read(b, pos + 32);
    if length.Err? {
      return Err(length.error);
    }
    var end := length.next + length.value;
    if end > |b| {
      return Err(Truncated);
    }
    r := Ok(Tuple([Str(HexStr(hash)), List(MapOver(IntOf, b[length.next..end]))]), end);
  }

  method ReadPool(b: seq<Byte>, start: nat, n: nat) returns (r: Parse<seq<Value>>)
    ensures r == DecodeList(PairItem(b), start, 0, n)
  {
    hide ParseEntry;
    ghost var item := PairItem(b);
    var pos: nat, pool: seq<Value> := start, [];
    PrependNothing(pool, DecodeList(item, pos, 0, n));
    for k := 0 to n
      invariant Prepend(pool, DecodeList(item, pos, k, n - k)) == DecodeList(item, start, 0, n)
    {
      PrependStep(item, pool, pos, k, n - k);
      var one := ReadEntry(b, pos);
      assert one == item(k, pos);
      if one.Err? {
        return Err(one.error);
      }
      pool, pos := pool + [one.value], one.next;
    }
    PrependNothing(pool, Ok([], pos));
    r := Ok(pool, pos);
  }

  method ReadCall(o: Outside, text: Text, b: seq<Byte>, start: nat, i: nat, poolLen: nat) returns (r: Parse<Value>)
    ensures r == ParseCall(o, text, b, start, i, poolLen)
  {
    var length := Read(b, start);
    if length.Err? {
      return Err(length.error);
    }
    var end := length.next + length.value;
    if end > |b| {
      return Err(Truncated);
    }
    var name := b[length.next..end];
    if !o.utf8(name) {
      return Err(BadUtf8);
    }
    if end + 32 > |b| {
      return Err(Truncated);
    }
    var argc := Read(b, end + 32);
    if argc.Err? {
      return Err(argc.error);
    }
    var args := ReadEdges(b, argc.next, i, poolLen, argc.value);
    if args.Err? {
      return Err(args.error);
    }
    r := Ok(Ctor("CCall", [Str(text(name)), Str(HexStr(b[end..end + 32])), List(args.value)]), args.next);
  }

  method ReadNode(o: Outside, text: Text, b: seq<Byte>, start: nat, i: nat, poolLen: nat) returns (r: Parse<Value>)
    ensures r == CtorItem(o, text, b, poolLen)(i, start)
  {
    var kind := Read(b, start);
    if kind.Err? {
      return Err(kind.error);
    }
    match kind.value {
      case 0 => r := ReadCall(o, text, b, kind.next, i, poolLen);
      case 1 =>
        var edges := ReadEdges(b, kind.next, i, poolLen, 3);
        r := if edges.Err? then Err(edges.error) else Ok(Ctor("CIf", edges.value), edges.next);
      case 2 => r := Ok(Ctor("CDeterminate", []), kind.next);
      case 3 => r := Ok(Ctor("CBlock", []), kind.next);
      case 4 =>
        var value := ReadEdge(b, kind.next, i, poolLen);
        r := if value.Err? then Err(value.error) else Ok(Ctor("CEnd", [value.value]), value.next);
      case _ => r := Err(BadKind);
    }
  }

  method ReadNodes(o: Outside, text: Text, b: seq<Byte>, start: nat, n: nat, poolLen: nat)
      returns (r: Parse<seq<Value>>)
    ensures r == DecodeList(CtorItem(o, text, b, poolLen), start, 0, n)
  {
    hide ParseNode;
    ghost var item := CtorItem(o, text, b, poolLen);
    var pos: nat, nodes: seq<Value> := start, [];
    PrependNothing(nodes, DecodeList(item, pos, 0, n));
    for i := 0 to n
      invariant Prepend(nodes, DecodeList(item, pos, i, n - i)) == DecodeList(item, start, 0, n)
    {
      PrependStep(item, nodes, pos, i, n - i);
      var one := ReadNode(o, text, b, pos, i, poolLen);
      if one.Err? {
        return Err(one.error);
      }
      nodes, pos := nodes + [one.value], one.next;
    }
    PrependNothing(nodes, Ok([], pos));
    r := Ok(nodes, pos);
  }

  method Parse(o: Outside, text: Text, b: seq<Byte>) returns (r: Parse<Value>)
    ensures r == ParseCanonical(o, text, b)
    ensures Fits32(o, b) ==> r == Ok(TreeOf(text, DecodeBundle(o, b).value), |b|)
  {
    if Fits32(o, b) {
      ParsersAgree(o, text, b);
    }
    var pools := Read(b, 0);
    if pools.Err? {
      return Err(pools.error);
    }
    var pool := ReadPool(b, pools.next, pools.value);
    if pool.Err? {
      return Err(pool.error);
    }
    var count := Read(b, pool.next);
    if count.Err? {
      return Err(count.error);
    }
    var nodes := ReadNodes(o, text, b, count.next, count.value % U32, pools.value % U32);
    if nodes.Err? {
      return Err(nodes.error);
    }
    var result := ReadEdge(b, nodes.next, count.value % U32, pools.value % U32);
    if result.Err? {
      return Err(result.error);
    }
    r := Ok(Tuple([List(pool.value), List(nodes.value), result.value]), result.next);
  }

  // ----- the tree itself -----

  lemma {:induction false} MapAt<S, T>(f: S -> T, xs: seq<S>)
    ensures |MapOver(f, xs)| == |xs| && forall k :: 0 <= k < |xs| ==> MapOver(f, xs)[k] == f(xs[k])
    decreases |xs|
  {
    if xs != [] {
      MapAt(f, xs[1..]);
    }
  }

  function Pool(i: nat): Value {
    Tuple([Str("pool"), Int(i)])
  }

  function Node(i: nat): Value {
    Tuple([Str("node"), Int(i)])
  }

  lemma RefTreeIs(i: nat)
    ensures RefTree(NodeRef(i)) == Node(i) && RefTree(PoolRef(i)) == Pool(i)
  {
  }

  /** Each kind of node as a tree: its tag and its fields in order. */
  lemma NodeTrees(text: Text, target: Hash)
    ensures NodeTree(text)(CDeterminate) == Ctor("CDeterminate", []) && NodeTree(text)(CBlock) == Ctor("CBlock", [])
    ensures NodeTree(text)(CEnd(NodeRef(0))) == Ctor("CEnd", [Node(0)])
    ensures NodeTree(text)(CEnd(PoolRef(0))) == Ctor("CEnd", [Pool(0)])
    ensures NodeTree(text)(CIf(PoolRef(0), NodeRef(2), NodeRef(4))) == Ctor("CIf", [Pool(0), Node(2), Node(4)])
    ensures NodeTree(text)(CCall(target, [NodeRef(5), PoolRef(0)], [97])) ==
      Ctor("CCall", [Str(text([97])), Str(HexStr(target)), List([Node(5), Pool(0)])])
  {
    RefTreeIs(0);
    RefTreeIs(2);
    RefTreeIs(4);
    RefTreeIs(5);
    hide RefTree, Node, Pool, HexStr;
    var args := [NodeRef(5), PoolRef(0)];
    MapAt(RefTree, args);
    assert MapOver(RefTree, args) == [Node(5), Pool(0)];
  }

  lemma EntryTreeIs(hash: Hash)
    ensures EntryTree(PoolEntry(hash, [7, 8])) == Tuple([Str(HexStr(hash)), List([Int(7), Int(8)])])
  {
    MapAt(IntOf, [7, 8]);
    assert MapOver(IntOf, [7, 8]) == [Int(7), Int(8)];
  }

  /** The tree of a bundle with every kind of node, in full; a hash is its hexadecimal digits. */
  lemma SampleTree(text: Text, hash: Hash, target: Hash)
    ensures TreeOf(text, Sample(hash, target)) ==
      Tuple([List([Tuple([Str(HexStr(hash)), List([Int(7), Int(8)])])]),
             List([Ctor("CDeterminate", []), Ctor("CBlock", []), Ctor("CEnd", [Node(0)]), Ctor("CBlock", []),
                   Ctor("CEnd", [Pool(0)]), Ctor("CIf", [Pool(0), Node(2), Node(4)]),
                   Ctor("CCall", [Str(text([97])), Str(HexStr(target)), List([Node(5), Pool(0)])])]),
             Node(6)])
  {
    var m := Sample(hash, target);
    NodeTrees(text, target);
    EntryTreeIs(hash);
    hide NodeTree, EntryTree, HexStr, MapOver;
    MapAt(EntryTree, m.pool);
    MapAt(NodeTree(text), m.nodes);
    assert MapOver(EntryTree, m.pool) == [EntryTree(m.pool[0])];
    assert MapOver(NodeTree(text), m.nodes) ==
      [Ctor("CDeterminate", []), Ctor("CBlock", []), Ctor("CEnd", [Node(0)]), Ctor("CBlock", []),
       Ctor("CEnd", [Pool(0)]), Ctor("CIf", [Pool(0), Node(2), Node(4)]),
       Ctor("CCall", [Str(text([97])), Str(HexStr(target)), List([Node(5), Pool(0)])])];
  }
}
