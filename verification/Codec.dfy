/** The canonical binary form of a bundle: one encoding per bundle, in both directions. */
module Codec {
  import opened CoreIr
  import opened Varint
  import opened Blocks

  const U32: nat := 0x1_0000_0000

  // ----- encoding -----

  function Tagged(r: Ref): nat {
    match r
    case NodeRef(i) => 2 * i
    case PoolRef(i) => 2 * i + 1
  }

  function EncodeRef(r: Ref): seq<Byte> {
    Encode(Tagged(r))
  }

  function EncodeBytes(data: seq<Byte>): seq<Byte> {
    Encode(|data|) + data
  }

  function EncodeList<T>(one: T -> seq<Byte>, xs: seq<T>): seq<Byte> {
    if xs == [] then [] else one(xs[0]) + EncodeList(one, xs[1..])
  }

  function EncodeRefs(rs: seq<Ref>): seq<Byte> {
    EncodeList(EncodeRef, rs)
  }

  function EncodeEntry(e: PoolEntry): seq<Byte> {
    e.defHash + EncodeBytes(e.payload)
  }

  function EncodeNode(n: Node): seq<Byte> {
    match n
    case CCall(target, args, name) => Encode(0) + (EncodeBytes(name) + (target + (Encode(|args|) + EncodeRefs(args))))
    case CIf(cond, then_, else_) => Encode(1) + EncodeRefs([cond, then_, else_])
    case CDeterminate => Encode(2)
    case CBlock => Encode(3)
    case CEnd(value) => Encode(4) + EncodeRef(value)
  }

  /** The canonical bytes of a bundle. */
  function EncodeBundle(b: Bundle): seq<Byte> {
    Encode(|b.pool|) +
    (EncodeList(EncodeEntry, b.pool) + (Encode(|b.nodes|) + (EncodeList(EncodeNode, b.nodes) + EncodeRef(b.result))))
  }

  // ----- decoding -----

  function Take(b: seq<Byte>, pos: nat, n: nat): Parse<seq<Byte>> {
    if pos + n <= |b| then Ok(b[pos..pos + n], pos + n) else Err(Truncated)
  }

  /** `as u32` keeps the low 32 bits. */
  function DecodeRef(b: seq<Byte>, pos: nat, nodes: nat, pool: nat): Parse<Ref> {
    match Decode(b, pos)
    case Err(e) => Err(e)
    case Ok(v, next) =>
      if v % 2 == 1 then (if v / 2 >= pool then Err(OutOfRange) else Ok(PoolRef(v / 2 % U32), next))
      else if v / 2 >= nodes then Err(OutOfRange) else Ok(NodeRef(v / 2 % U32), next)
  }

  function DecodeBytes(b: seq<Byte>, pos: nat): Parse<seq<Byte>> {
    match Decode(b, pos)
    case Err(e) => Err(e)
    case Ok(n, next) => Take(b, next, n)
  }

  /** A reader of the `i`-th item of a list at a position. */
  type Item<!T> = (nat, nat) -> Parse<T>

  /** `n` items from the `i`-th on. */
  function DecodeList<T>(item: Item<T>, pos: nat, i: nat, n: nat): Parse<seq<T>>
    decreases n
  {
    if n == 0 then Ok([], pos) else
    match item(i, pos)
    case Err(e) => Err(e)
    case Ok(x, next) =>
      match DecodeList(item, next, i + 1, n - 1)
      case Err(e) => Err(e)
      case Ok(rest, end) => Ok([x] + rest, end)
  }

  function RefItem(b: seq<Byte>, nodes: nat, pool: nat): Item<Ref> {
    (i: nat, pos: nat) => DecodeRef(b, pos, nodes, pool)
  }

  function DecodeRefs(b: seq<Byte>, pos: nat, n: nat, nodes: nat, pool: nat): Parse<seq<Ref>> {
    DecodeList(RefItem(b, nodes, pool), pos, 0, n)
  }

  function DecodeEntry(b: seq<Byte>, pos: nat): Parse<PoolEntry> {
    match Take(b, pos, 32)
    case Err(e) => Err(e)
    case Ok(h, next) =>
      match DecodeBytes(b, next)
      case Err(e) => Err(e)
      case Ok(payload, end) => Ok(PoolEntry(h, payload), end)
  }

  function EntryItem(b: seq<Byte>): Item<PoolEntry> {
    (i: nat, pos: nat) => DecodeEntry(b, pos)
  }

  /** What the decoder takes from outside: which byte strings are UTF-8, and the hash of the Unit type. */
  datatype Outside = Outside(utf8: seq<Byte> -> bool, unit: Hash)

  function DecodeCall(o: Outside, b: seq<Byte>, pos: nat, i: nat, pool: nat): Parse<Node> {
    match DecodeBytes(b, pos)
    case Err(e) => Err(e)
    case Ok(name, p1) =>
      if !o.utf8(name) then Err(BadUtf8) else
      match Take(b, p1, 32)
      case Err(e) => Err(e)
      case Ok(target, p2) =>
        match Decode(b, p2)
        case Err(e) => Err(e)
        case Ok(argc, p3) =>
          match DecodeRefs(b, p3, argc, i, pool)
          case Err(e) => Err(e)
          case Ok(args, end) => Ok(CCall(target, args, name), end)
  }

  function DecodeNode(o: Outside, b: seq<Byte>, pos: nat, i: nat, pool: nat): Parse<Node> {
    match Decode(b, pos)
    case Err(e) => Err(e)
    case Ok(kind, next) =>
      if kind == 0 then DecodeCall(o, b, next, i, pool)
      else if kind == 1 then
        (match DecodeRefs(b, next, 3, i, pool)
         case Err(e) => Err(e)
         case Ok(rs, end) => DecodeCount(RefItem(b, i, pool), next, 0, 3); Ok(CIf(rs[0], rs[1], rs[2]), end))
      else if kind == 2 then Ok(CDeterminate, next)
      else if kind == 3 then Ok(CBlock, next)
      else if kind == 4 then
        (match DecodeRef(b, next, i, pool)
         case Err(e) => Err(e)
         case Ok(r, end) => Ok(CEnd(r), end))
      else Err(BadKind)
  }

  lemma {:induction false} DecodeCount<T>(item: Item<T>, pos: nat, i: nat, n: nat)
    requires DecodeList(item, pos, i, n).Ok?
    ensures |DecodeList(item, pos, i, n).value| == n
    decreases n
  {
    if n > 0 {
      DecodeCount(item, item(i, pos).next, i + 1, n - 1);
    }
  }

  function NodeItem(o: Outside, b: seq<Byte>, pool: nat): Item<Node> {
    (i: nat, pos: nat) => DecodeNode(o, b, pos, i, pool)
  }

  function DecodeBody(o: Outside, b: seq<Byte>, pos: nat, entries: seq<PoolEntry>, pool: nat): Parse<Bundle> {
    match Decode(b, pos)
    case Err(e) => Err(e)
    case Ok(n, p1) =>
      match DecodeList(NodeItem(o, b, pool), p1, 0, n)
      case Err(e) => Err(e)
      case Ok(nodes, p2) =>
        match DecodeRef(b, p2, n, pool)
        case Err(e) => Err(e)
        case Ok(result, end) => if end != |b| then Err(Trailing) else Ok(Bundle(entries, nodes, result), end)
  }

  /** The bundle a byte string spells, before the block rules. */
  function DecodeBundle(o: Outside, b: seq<Byte>): Parse<Bundle> {
    match Decode(b, 0)
    case Err(e) => Err(e)
    case Ok(pool, p1) =>
      match DecodeList(EntryItem(b), p1, 0, pool)
      case Err(e) => Err(e)
      case Ok(entries, p2) => DecodeBody(o, b, p2, entries, pool)
  }

  /** What `deserialize_canonical` accepts: a canonical byte string whose bundle obeys the block rules. */
  ghost function Deserialized(o: Outside, b: seq<Byte>): Option<Bundle> {
    var r := DecodeBundle(o, b);
    if r.Ok? && BlockRules(r.value, o.unit) then Some(r.value) else None
  }

  // ----- well-formed bundles -----

  predicate RefFits(r: Ref, nodes: nat, pool: nat) {
    match r
    case NodeRef(i) => i < nodes
    case PoolRef(i) => i < pool
  }

  predicate NodeFits(o: Outside, n: Node, i: nat, pool: nat) {
    match n
    case CCall(target, args, name) =>
      && |target| == 32 && |name| < U64 && o.utf8(name) && |args| < U64
      && forall r :: r in args ==> RefFits(r, i, pool)
    case CIf(cond, then_, else_) => forall r :: r in [cond, then_, else_] ==> RefFits(r, i, pool)
    case CDeterminate => true
    case CBlock => true
    case CEnd(value) => RefFits(value, i, pool)
  }

  predicate EntryFits(e: PoolEntry) {
    |e.defHash| == 32 && |e.payload| < U64
  }

  /** Hashes of 32 bytes, references that go back, counts and indices within 32 bits. */
  predicate WellFormed(o: Outside, b: Bundle) {
    && |b.pool| <= U32 && |b.nodes| <= U32
    && (forall e :: e in b.pool ==> EntryFits(e))
    && (forall i :: 0 <= i < |b.nodes| ==> NodeFits(o, b.nodes[i], i, |b.pool|))
    && RefFits(b.result, |b.nodes|, |b.pool|)
  }

  // ----- each part, both ways -----

  function Untagged(v: nat): Ref {
    if v % 2 == 1 then PoolRef(v / 2) else NodeRef(v / 2)
  }

  lemma Tags(r: Ref, v: nat)
    ensures Tagged(r) == v <==> r == Untagged(v)
  {
  }

  lemma DecodeRefIs(b: seq<Byte>, pos: nat, nodes: nat, pool: nat)
    requires nodes <= U32 && pool <= U32
    ensures DecodeRef(b, pos, nodes, pool) ==
      match Decode(b, pos)
      case Err(e) => Err(e)
      case Ok(v, next) => if RefFits(Untagged(v), nodes, pool) then Ok(Untagged(v), next) else Err(OutOfRange)
  {
  }

  lemma RefCodec(b: seq<Byte>, pos: nat, nodes: nat, pool: nat, r: Ref, next: nat)
    requires nodes <= U32 && pool <= U32
    requires RefFits(r, nodes, pool)
    ensures DecodeRef(b, pos, nodes, pool) == Ok(r, next) <==> Has(b, pos, EncodeRef(r)) && next == pos + |EncodeRef(r)|
  {
    DecodeRefIs(b, pos, nodes, pool);
    Tags(r, Tagged(r));
    assert Tagged(r) < U64;
    DecodesTo(b, pos, Tagged(r), next);
    if Decode(b, pos).Ok? {
      Tags(r, Decode(b, pos).value);
    }
  }

  lemma RefDecoded(b: seq<Byte>, pos: nat, nodes: nat, pool: nat)
    requires nodes <= U32 && pool <= U32 && DecodeRef(b, pos, nodes, pool).Ok?
    ensures var Ok(r, next) := DecodeRef(b, pos, nodes, pool);
      RefFits(r, nodes, pool) && Has(b, pos, EncodeRef(r)) && next == pos + |EncodeRef(r)|
  {
    DecodeRefIs(b, pos, nodes, pool);
    var Ok(r, next) := DecodeRef(b, pos, nodes, pool);
    RefCodec(b, pos, nodes, pool, r, next);
  }

  lemma BytesCodec(b: seq<Byte>, pos: nat, data: seq<Byte>, next: nat)
    ensures DecodeBytes(b, pos) == Ok(data, next) <==>
      |data| < U64 && Has(b, pos, EncodeBytes(data)) && next == pos + |EncodeBytes(data)|
  {
    HasConcat(b, pos, Encode(|data|), data);
    DecodesTo(b, pos, |data|, pos + |Encode(|data|)|);
    if Decode(b, pos).Ok? {
      DecodesTo(b, pos, Decode(b, pos).value, Decode(b, pos).next);
    }
  }

  // ----- lists -----

  /** `item` reads back whatever is spelt by `one`. */
  ghost predicate Reads<T(!new)>(b: seq<Byte>, item: Item<T>, one: T -> seq<Byte>, fits: (T, nat) -> bool, bound: nat) {
    forall x: T, i: nat, pos: nat {:trigger fits(x, i), item(i, pos)} ::
      i < bound && fits(x, i) && Has(b, pos, one(x)) ==> item(i, pos) == Ok(x, pos + |one(x)|)
  }

  /** Whatever `item` reads is spelt by `one`. */
  ghost predicate Spells<T(!new)>(b: seq<Byte>, item: Item<T>, one: T -> seq<Byte>, fits: (T, nat) -> bool,
      bound: nat) {
    forall i: nat, pos: nat {:trigger item(i, pos)} ::
      i < bound && item(i, pos).Ok? ==>
        var Ok(x, next) := item(i, pos); fits(x, i) && Has(b, pos, one(x)) && next == pos + |one(x)|
  }

  predicate AllFit<T>(fits: (T, nat) -> bool, i: nat, xs: seq<T>) {
    forall k :: 0 <= k < |xs| ==> fits(xs[k], i + k)
  }

  lemma {:induction false} ListReads<T(!new)>(
    b: seq<Byte>, item: Item<T>, one: T -> seq<Byte>, fits: (T, nat) -> bool, bound: nat, pos: nat, i: nat, xs: seq<T>)
    requires Reads(b, item, one, fits, bound) && i + |xs| <= bound
    requires AllFit(fits, i, xs) && Has(b, pos, EncodeList(one, xs))
    ensures DecodeList(item, pos, i, |xs|) == Ok(xs, pos + |EncodeList(one, xs)|)
    decreases |xs|
  {
    if xs != [] {
      var x, rest := xs[0], xs[1..];
      HasConcat(b, pos, one(x), EncodeList(one, rest));
      assert fits(x, i + 0) && item(i, pos) == Ok(x, pos + |one(x)|);
      forall k | 0 <= k < |rest|
        ensures fits(rest[k], i + 1 + k)
      {
        assert fits(xs[k + 1], i + (k + 1));
      }
      ListReads(b, item, one, fits, bound, pos + |one(x)|, i + 1, rest);
      assert xs == [x] + rest;
    }
  }

  lemma {:induction false} ListSpelt<T(!new)>(
    b: seq<Byte>, item: Item<T>, one: T -> seq<Byte>, fits: (T, nat) -> bool, bound: nat, pos: nat, i: nat, n: nat)
    requires Spells(b, item, one, fits, bound) && i + n <= bound && pos <= |b| && DecodeList(item, pos, i, n).Ok?
    ensures var Ok(xs, next) := DecodeList(item, pos, i, n);
      |xs| == n && AllFit(fits, i, xs) && Has(b, pos, EncodeList(one, xs)) && next == pos + |EncodeList(one, xs)|
    decreases n
  {
    if n > 0 {
      var Ok(x, p) := item(i, pos);
      ListSpelt(b, item, one, fits, bound, p, i + 1, n - 1);
      var Ok(rest, next) := DecodeList(item, p, i + 1, n - 1);
      HasConcat(b, pos, one(x), EncodeList(one, rest));
      var xs := [x] + rest;
      assert xs[1..] == rest;
      forall k | 0 <= k < n
        ensures fits(xs[k], i + k)
      {
        if k > 0 {
          assert fits(rest[k - 1], (i + 1) + (k - 1));
        }
      }
    }
  }

  function FitsBehind(nodes: nat, pool: nat): (Ref, nat) -> bool {
    (r: Ref, i: nat) => RefFits(r, nodes, pool)
  }

  lemma RefsExact(b: seq<Byte>, nodes: nat, pool: nat, n: nat)
    requires nodes <= U32 && pool <= U32
    ensures Reads(b, RefItem(b, nodes, pool), EncodeRef, FitsBehind(nodes, pool), n)
    ensures Spells(b, RefItem(b, nodes, pool), EncodeRef, FitsBehind(nodes, pool), n)
  {
    forall r, pos: nat | RefFits(r, nodes, pool) && Has(b, pos, EncodeRef(r))
      ensures DecodeRef(b, pos, nodes, pool) == Ok(r, pos + |EncodeRef(r)|)
    {
      RefCodec(b, pos, nodes, pool, r, pos + |EncodeRef(r)|);
    }
    forall pos: nat | DecodeRef(b, pos, nodes, pool).Ok?
      ensures var Ok(r, next) := DecodeRef(b, pos, nodes, pool);
        RefFits(r, nodes, pool) && Has(b, pos, EncodeRef(r)) && next == pos + |EncodeRef(r)|
    {
      RefDecoded(b, pos, nodes, pool);
    }
  }

  lemma RefsRead(b: seq<Byte>, pos: nat, nodes: nat, pool: nat, rs: seq<Ref>)
    requires nodes <= U32 && pool <= U32 && (forall r :: r in rs ==> RefFits(r, nodes, pool)) &&
      Has(b, pos, EncodeRefs(rs))
    ensures DecodeRefs(b, pos, |rs|, nodes, pool) == Ok(rs, pos + |EncodeRefs(rs)|)
  {
    RefsExact(b, nodes, pool, |rs|);
    ListReads(b, RefItem(b, nodes, pool), EncodeRef, FitsBehind(nodes, pool), |rs|, pos, 0, rs);
  }

  lemma RefsSpelt(b: seq<Byte>, pos: nat, n: nat, nodes: nat, pool: nat)
    requires nodes <= U32 && pool <= U32 && pos <= |b| && DecodeRefs(b, pos, n, nodes, pool).Ok?
    ensures var Ok(rs, next) := DecodeRefs(b, pos, n, nodes, pool);
      |rs| == n && (forall r :: r in rs ==> RefFits(r, nodes, pool)) && Has(b, pos, EncodeRefs(rs)) &&
      next == pos + |EncodeRefs(rs)|
  {
    RefsExact(b, nodes, pool, n);
    ListSpelt(b, RefItem(b, nodes, pool), EncodeRef, FitsBehind(nodes, pool), n, pos, 0, n);
    var Ok(rs, next) := DecodeRefs(b, pos, n, nodes, pool);
    forall r | r in rs
      ensures RefFits(r, nodes, pool)
    {
      var k :| 0 <= k < |rs| && rs[k] == r;
      assert FitsBehind(nodes, pool)(rs[k], 0 + k);
    }
  }

  lemma EntryCodec(b: seq<Byte>, pos: nat, e: PoolEntry)
    requires EntryFits(e) && Has(b, pos, EncodeEntry(e))
    ensures DecodeEntry(b, pos) == Ok(e, pos + |EncodeEntry(e)|)
  {
    HasConcat(b, pos, e.defHash, EncodeBytes(e.payload));
    BytesCodec(b, pos + 32, e.payload, pos + |EncodeEntry(e)|);
  }

  lemma EntryDecoded(b: seq<Byte>, pos: nat)
    requires DecodeEntry(b, pos).Ok?
    ensures var Ok(e, next) := DecodeEntry(b, pos);
      EntryFits(e) && Has(b, pos, EncodeEntry(e)) && next == pos + |EncodeEntry(e)|
  {
    var Ok(e, next) := DecodeEntry(b, pos);
    BytesCodec(b, pos + 32, e.payload, next);
    HasConcat(b, pos, e.defHash, EncodeBytes(e.payload));
  }

  // ----- nodes -----

  function EncodeCallBody(target: Hash, args: seq<Ref>, name: seq<Byte>): seq<Byte> {
    EncodeBytes(name) + (target + (Encode(|args|) + EncodeRefs(args)))
  }

  lemma CallSplits(b: seq<Byte>, pos: nat, target: Hash, args: seq<Ref>, name: seq<Byte>)
    requires |target| == 32
    ensures var p1, argc := pos + |EncodeBytes(name)|, Encode(|args|);
      && |EncodeCallBody(target, args, name)| == |EncodeBytes(name)| + 32 + |argc| + |EncodeRefs(args)|
      && (Has(b, pos, EncodeCallBody(target, args, name)) <==>
          && Has(b, pos, EncodeBytes(name))
          && Has(b, p1, target)
          && Has(b, p1 + 32, argc)
          && Has(b, p1 + 32 + |argc|, EncodeRefs(args)))
  {
    var argc, refs := Encode(|args|), EncodeRefs(args);
    var p1 := pos + |EncodeBytes(name)|;
    HasConcat(b, p1 + 32, argc, refs);
    HasConcat(b, p1, target, argc + refs);
    HasConcat(b, pos, EncodeBytes(name), target + (argc + refs));
  }

  lemma CallCodec(o: Outside, b: seq<Byte>, pos: nat, i: nat, pool: nat, n: Node)
    requires i <= U32 && pool <= U32 && n.CCall? && NodeFits(o, n, i, pool)
    requires Has(b, pos, EncodeCallBody(n.target, n.args, n.name))
    ensures DecodeCall(o, b, pos, i, pool) == Ok(n, pos + |EncodeCallBody(n.target, n.args, n.name)|)
  {
    hide EncodeCallBody, EncodeBytes, EncodeRefs, Encode, Decode, DecodeBytes, DecodeRefs;
    var p1 := pos + |EncodeBytes(n.name)|;
    var p3 := p1 + 32 + |Encode(|n.args|)|;
    CallSplits(b, pos, n.target, n.args, n.name);
    BytesCodec(b, pos, n.name, p1);
    DecodesTo(b, p1 + 32, |n.args|, p3);
    RefsRead(b, p3, i, pool, n.args);
  }

  lemma CallDecoded(o: Outside, b: seq<Byte>, pos: nat, i: nat, pool: nat)
    requires i <= U32 && pool <= U32 && pos <= |b| && DecodeCall(o, b, pos, i, pool).Ok?
    ensures var Ok(n, next) := DecodeCall(o, b, pos, i, pool);
      n.CCall? && NodeFits(o, n, i, pool) && Has(b, pos, EncodeCallBody(n.target, n.args, n.name)) &&
      next == pos + |EncodeCallBody(n.target, n.args, n.name)|
  {
    hide EncodeCallBody, EncodeBytes, EncodeRefs, Encode, Decode, DecodeBytes, DecodeRefs;
    var Ok(n, next) := DecodeCall(o, b, pos, i, pool);
    var p1 := DecodeBytes(b, pos).next;
    BytesCodec(b, pos, n.name, p1);
    var Ok(argc, p3) := Decode(b, p1 + 32);
    DecodesTo(b, p1 + 32, argc, p3);
    RefsSpelt(b, p3, argc, i, pool);
    CallSplits(b, pos, n.target, n.args, n.name);
  }

  function Kind(n: Node): nat {
    match n
    case CCall(_, _, _) => 0
    case CIf(_, _, _) => 1
    case CDeterminate => 2
    case CBlock => 3
    case CEnd(_) => 4
  }

  function EncodeFields(n: Node): seq<Byte> {
    match n
    case CCall(target, args, name) => EncodeCallBody(target, args, name)
    case CIf(cond, then_, else_) => EncodeRefs([cond, then_, else_])
    case CDeterminate => []
    case CBlock => []
    case CEnd(value) => EncodeRef(value)
  }

  lemma NodeIsKindAndFields(n: Node)
    ensures EncodeNode(n) == Encode(Kind(n)) + EncodeFields(n)
  {
  }

  lemma NodeCodec(o: Outside, b: seq<Byte>, pos: nat, i: nat, pool: nat, n: Node)
    requires i <= U32 && pool <= U32 && NodeFits(o, n, i, pool) && Has(b, pos, EncodeNode(n))
    ensures DecodeNode(o, b, pos, i, pool) == Ok(n, pos + |EncodeNode(n)|)
  {
    NodeIsKindAndFields(n);
    HasConcat(b, pos, Encode(Kind(n)), EncodeFields(n));
    var p := pos + |Encode(Kind(n))|;
    DecodesTo(b, pos, Kind(n), p);
    match n
    case CCall(_, _, _) => CallCodec(o, b, p, i, pool, n);
    case CIf(cond, then_, else_) => RefsRead(b, p, i, pool, [cond, then_, else_]);
    case CDeterminate =>
    case CBlock =>
    case CEnd(value) => RefCodec(b, p, i, pool, value, p + |EncodeRef(value)|);
  }

  lemma NodeDecoded(o: Outside, b: seq<Byte>, pos: nat, i: nat, pool: nat)
    requires i <= U32 && pool <= U32 && DecodeNode(o, b, pos, i, pool).Ok?
    ensures var Ok(n, next) := DecodeNode(o, b, pos, i, pool);
      NodeFits(o, n, i, pool) && Has(b, pos, EncodeNode(n)) && next == pos + |EncodeNode(n)|
  {
    hide DecodeCall, DecodeRef, EncodeNode, EncodeFields, NodeFits, Has;
    var Ok(n, next) := DecodeNode(o, b, pos, i, pool);
    var Ok(kind, p) := Decode(b, pos);
    DecodesTo(b, pos, kind, p);
    if kind == 1 {
      DecodeCount(RefItem(b, i, pool), p, 0, 3);
      assert DecodeRefs(b, p, 3, i, pool).value == [n.cond, n.then_, n.else_];
    }
    FieldsDecoded(o, b, p, i, pool, kind, n, next);
    NodeIsKindAndFields(n);
    HasConcat(b, pos, Encode(Kind(n)), EncodeFields(n));
  }

  lemma FieldsDecoded(o: Outside, b: seq<Byte>, p: nat, i: nat, pool: nat, kind: nat, n: Node, next: nat)
    requires i <= U32 && pool <= U32 && p <= |b|
    requires kind == 0 ==> DecodeCall(o, b, p, i, pool) == Ok(n, next)
    requires kind == 1 ==> n.CIf? && DecodeRefs(b, p, 3, i, pool) == Ok([n.cond, n.then_, n.else_], next)
    requires kind == 2 ==> n == CDeterminate && next == p
    requires kind == 3 ==> n == CBlock && next == p
    requires kind == 4 ==> n.CEnd? && DecodeRef(b, p, i, pool) == Ok(n.value, next)
    requires kind <= 4
    ensures Kind(n) == kind && NodeFits(o, n, i, pool) && Has(b, p, EncodeFields(n)) && next == p + |EncodeFields(n)|
  {
    if kind == 0 {
      CallDecoded(o, b, p, i, pool);
    } else if kind == 1 {
      RefsSpelt(b, p, 3, i, pool);
    } else if kind == 4 {
      RefDecoded(b, p, i, pool);
    }
  }

  function FitsAt(o: Outside, pool: nat): (Node, nat) -> bool {
    (n: Node, i: nat) => NodeFits(o, n, i, pool)
  }

  lemma NodesExact(o: Outside, b: seq<Byte>, pool: nat, n: nat)
    requires n <= U32 && pool <= U32
    ensures Reads(b, NodeItem(o, b, pool), EncodeNode, FitsAt(o, pool), n)
    ensures Spells(b, NodeItem(o, b, pool), EncodeNode, FitsAt(o, pool), n)
  {
    var item, fits := NodeItem(o, b, pool), FitsAt(o, pool);
    forall x, i: nat, pos: nat {:trigger fits(x, i), item(i, pos)} | i < n && fits(x, i) && Has(b, pos, EncodeNode(x))
      ensures item(i, pos) == Ok(x, pos + |EncodeNode(x)|)
    {
      NodeCodec(o, b, pos, i, pool, x);
    }
    forall i: nat, pos: nat {:trigger item(i, pos)} | i < n && item(i, pos).Ok?
      ensures var Ok(x, next) := item(i, pos); fits(x, i) && Has(b, pos, EncodeNode(x)) && next == pos + |EncodeNode(x)|
    {
      NodeDecoded(o, b, pos, i, pool);
    }
  }

  lemma EntriesExact(b: seq<Byte>, n: nat)
    ensures Reads(b, EntryItem(b), EncodeEntry, FitsPool(), n)
    ensures Spells(b, EntryItem(b), EncodeEntry, FitsPool(), n)
  {
    var item, fits := EntryItem(b), FitsPool();
    forall x, i: nat, pos: nat {:trigger fits(x, i), item(i, pos)} | fits(x, i) && Has(b, pos, EncodeEntry(x))
      ensures item(i, pos) == Ok(x, pos + |EncodeEntry(x)|)
    {
      EntryCodec(b, pos, x);
    }
    forall i: nat, pos: nat {:trigger item(i, pos)} | item(i, pos).Ok?
      ensures var Ok(x, next) := item(i, pos);
        fits(x, i) && Has(b, pos, EncodeEntry(x)) && next == pos + |EncodeEntry(x)|
    {
      EntryDecoded(b, pos);
    }
  }

  function FitsPool(): (PoolEntry, nat) -> bool {
    (e, i) => EntryFits(e)
  }

  // ----- bundles -----

  lemma FiveParts(b: seq<Byte>, s1: seq<Byte>, s2: seq<Byte>, s3: seq<Byte>, s4: seq<Byte>, s5: seq<Byte>)
    ensures Has(b, 0, s1 + (s2 + (s3 + (s4 + s5)))) <==>
      && Has(b, 0, s1)
      && Has(b, |s1|, s2)
      && Has(b, |s1| + |s2|, s3)
      && Has(b, |s1| + |s2| + |s3|, s4)
      && Has(b, |s1| + |s2| + |s3| + |s4|, s5)
  {
    HasConcat(b, |s1| + |s2| + |s3|, s4, s5);
    HasConcat(b, |s1| + |s2|, s3, s4 + s5);
    HasConcat(b, |s1|, s2, s3 + (s4 + s5));
    HasConcat(b, 0, s1, s2 + (s3 + (s4 + s5)));
  }

  lemma WellFormedFits(o: Outside, m: Bundle)
    requires WellFormed(o, m)
    ensures AllFit(FitsPool(), 0, m.pool) && AllFit(FitsAt(o, |m.pool|), 0, m.nodes)
  {
  }

  lemma PartsRead(o: Outside, b: seq<Byte>, m: Bundle, p1: nat, p3: nat)
    requires WellFormed(o, m)
    requires Has(b, p1, EncodeList(EncodeEntry, m.pool)) && Has(b, p3, EncodeList(EncodeNode, m.nodes))
    ensures DecodeList(EntryItem(b), p1, 0, |m.pool|) == Ok(m.pool, p1 + |EncodeList(EncodeEntry, m.pool)|)
    ensures DecodeList(NodeItem(o, b, |m.pool|), p3, 0, |m.nodes|) ==
      Ok(m.nodes, p3 + |EncodeList(EncodeNode, m.nodes)|)
  {
    WellFormedFits(o, m);
    EntriesExact(b, |m.pool|);
    ListReads(b, EntryItem(b), EncodeEntry, FitsPool(), |m.pool|, p1, 0, m.pool);
    NodesExact(o, b, |m.pool|, |m.nodes|);
    ListReads(b, NodeItem(o, b, |m.pool|), EncodeNode, FitsAt(o, |m.pool|), |m.nodes|, p3, 0, m.nodes);
  }

  lemma DecodeWhole(o: Outside, b: seq<Byte>, m: Bundle, p1: nat, p2: nat, p3: nat, p4: nat)
    requires Decode(b, 0) == Ok(|m.pool|, p1)
    requires DecodeList(EntryItem(b), p1, 0, |m.pool|) == Ok(m.pool, p2)
    requires Decode(b, p2) == Ok(|m.nodes|, p3)
    requires DecodeList(NodeItem(o, b, |m.pool|), p3, 0, |m.nodes|) == Ok(m.nodes, p4)
    requires DecodeRef(b, p4, |m.nodes|, |m.pool|) == Ok(m.result, |b|)
    ensures DecodeBundle(o, b) == Ok(m, |b|)
  {
  }

  lemma EncodedStands(b: seq<Byte>, m: Bundle) returns (p1: nat, p2: nat, p3: nat, p4: nat)
    requires b == EncodeBundle(m)
    ensures p1 == |Encode(|m.pool|)| && Has(b, 0, Encode(|m.pool|))
    ensures p2 == p1 + |EncodeList(EncodeEntry, m.pool)| && Has(b, p1, EncodeList(EncodeEntry, m.pool))
    ensures p3 == p2 + |Encode(|m.nodes|)| && Has(b, p2, Encode(|m.nodes|))
    ensures p4 == p3 + |EncodeList(EncodeNode, m.nodes)| && Has(b, p3, EncodeList(EncodeNode, m.nodes))
    ensures |b| == p4 + |EncodeRef(m.result)| && Has(b, p4, EncodeRef(m.result))
  {
    hide Encode, EncodeList, EncodeRef;
    FiveParts(b, Encode(|m.pool|), EncodeList(EncodeEntry, m.pool), Encode(|m.nodes|), EncodeList(EncodeNode, m.nodes),
              EncodeRef(m.result));
    p1 := |Encode(|m.pool|)|;
    p2 := p1 + |EncodeList(EncodeEntry, m.pool)|;
    p3 := p2 + |Encode(|m.nodes|)|;
    p4 := p3 + |EncodeList(EncodeNode, m.nodes)|;
  }

  /** Decoding the encoding of a well-formed bundle returns it. */
  lemma DecodeEncode(o: Outside, m: Bundle)
    requires WellFormed(o, m)
    ensures DecodeBundle(o, EncodeBundle(m)) == Ok(m, |EncodeBundle(m)|)
  {
    hide Encode, EncodeList, EncodeRef, Has, DecodeList, DecodeRef, Decode, RefFits;
    var b := EncodeBundle(m);
    var p1, p2, p3, p4 := EncodedStands(b, m);
    assert Decode(b, 0) == Ok(|m.pool|, p1) by {
      DecodesTo(b, 0, |m.pool|, p1);
    }
    assert Decode(b, p2) == Ok(|m.nodes|, p3) by {
      DecodesTo(b, p2, |m.nodes|, p3);
    }
    PartsRead(o, b, m, p1, p3);
    assert DecodeRef(b, p4, |m.nodes|, |m.pool|) == Ok(m.result, |b|) by {
      RefCodec(b, p4, |m.nodes|, |m.pool|, m.result, |b|);
    }
    DecodeWhole(o, b, m, p1, p2, p3, p4);
  }

  lemma PartsSpelt(o: Outside, b: seq<Byte>, p1: nat, p3: nat, pool: nat, n: nat)
    requires pool <= U32 && n <= U32 && p1 <= |b| && p3 <= |b|
    requires DecodeList(EntryItem(b), p1, 0, pool).Ok? && DecodeList(NodeItem(o, b, pool), p3, 0, n).Ok?
    ensures var Ok(entries, p2) := DecodeList(EntryItem(b), p1, 0, pool);
      |entries| == pool && AllFit(FitsPool(), 0, entries) && Has(b, p1, EncodeList(EncodeEntry, entries)) &&
      p2 == p1 + |EncodeList(EncodeEntry, entries)|
    ensures var Ok(nodes, p4) := DecodeList(NodeItem(o, b, pool), p3, 0, n);
      |nodes| == n && AllFit(FitsAt(o, pool), 0, nodes) && Has(b, p3, EncodeList(EncodeNode, nodes)) &&
      p4 == p3 + |EncodeList(EncodeNode, nodes)|
  {
    EntriesExact(b, pool);
    ListSpelt(b, EntryItem(b), EncodeEntry, FitsPool(), pool, p1, 0, pool);
    NodesExact(o, b, pool, n);
    ListSpelt(b, NodeItem(o, b, pool), EncodeNode, FitsAt(o, pool), n, p3, 0, n);
  }

  lemma FitsWellFormed(o: Outside, m: Bundle)
    requires |m.pool| <= U32 && |m.nodes| <= U32 && RefFits(m.result, |m.nodes|, |m.pool|)
    requires AllFit(FitsPool(), 0, m.pool) && AllFit(FitsAt(o, |m.pool|), 0, m.nodes)
    ensures WellFormed(o, m)
  {
    forall e | e in m.pool
      ensures EntryFits(e)
    {
      var k :| 0 <= k < |m.pool| && m.pool[k] == e;
      assert FitsPool()(m.pool[k], 0 + k);
    }
    forall i | 0 <= i < |m.nodes|
      ensures NodeFits(o, m.nodes[i], i, |m.pool|)
    {
      assert FitsAt(o, |m.pool|)(m.nodes[i], 0 + i);
    }
  }

  /** The positions at which the parts of a decoded bundle start. */
  lemma DecodeParts(o: Outside, b: seq<Byte>) returns (p1: nat, p2: nat, p3: nat, p4: nat)
    requires DecodeBundle(o, b).Ok?
    ensures var m := DecodeBundle(o, b).value;
      && Decode(b, 0) == Ok(|m.pool|, p1)
      && DecodeList(EntryItem(b), p1, 0, |m.pool|) == Ok(m.pool, p2)
      && Decode(b, p2) == Ok(|m.nodes|, p3)
      && DecodeList(NodeItem(o, b, |m.pool|), p3, 0, |m.nodes|) == Ok(m.nodes, p4)
      && DecodeRef(b, p4, |m.nodes|, |m.pool|) == Ok(m.result, |b|)
  {
    var pool := Decode(b, 0).value;
    p1 := Decode(b, 0).next;
    DecodeCount(EntryItem(b), p1, 0, pool);
    p2 := DecodeList(EntryItem(b), p1, 0, pool).next;
    var n := Decode(b, p2).value;
    p3 := Decode(b, p2).next;
    DecodeCount(NodeItem(o, b, pool), p3, 0, n);
    p4 := DecodeList(NodeItem(o, b, pool), p3, 0, n).next;
  }

  lemma CountsSpelt(b: seq<Byte>, pool: nat, p1: nat, p2: nat, n: nat, p3: nat)
    requires Decode(b, 0) == Ok(pool, p1) && Decode(b, p2) == Ok(n, p3)
    ensures Has(b, 0, Encode(pool)) && p1 == |Encode(pool)| <= |b|
    ensures Has(b, p2, Encode(n)) && p3 == p2 + |Encode(n)| <= |b|
  {
    DecodesTo(b, 0, pool, p1);
    DecodesTo(b, p2, n, p3);
  }

  lemma PartsFit(o: Outside, b: seq<Byte>, m: Bundle, p1: nat, p2: nat, p3: nat, p4: nat)
    requires |m.pool| <= U32 && |m.nodes| <= U32
    requires Decode(b, 0) == Ok(|m.pool|, p1)
    requires DecodeList(EntryItem(b), p1, 0, |m.pool|) == Ok(m.pool, p2)
    requires Decode(b, p2) == Ok(|m.nodes|, p3)
    requires DecodeList(NodeItem(o, b, |m.pool|), p3, 0, |m.nodes|) == Ok(m.nodes, p4)
    requires DecodeRef(b, p4, |m.nodes|, |m.pool|) == Ok(m.result, |b|)
    ensures WellFormed(o, m)
  {
    CountsSpelt(b, |m.pool|, p1, p2, |m.nodes|, p3);
    PartsSpelt(o, b, p1, p3, |m.pool|, |m.nodes|);
    RefDecoded(b, p4, |m.nodes|, |m.pool|);
    FitsWellFormed(o, m);
  }

  lemma Assemble(b: seq<Byte>, s1: seq<Byte>, s2: seq<Byte>, s3: seq<Byte>, s4: seq<Byte>, s5: seq<Byte>,
                 p1: nat, p2: nat, p3: nat, p4: nat)
    requires p1 == |s1| && p2 == p1 + |s2| && p3 == p2 + |s3| && p4 == p3 + |s4| && |b| == p4 + |s5|
    requires Has(b, 0, s1) && Has(b, p1, s2) && Has(b, p2, s3) && Has(b, p3, s4) && Has(b, p4, s5)
    ensures s1 + (s2 + (s3 + (s4 + s5))) == b
  {
    FiveParts(b, s1, s2, s3, s4, s5);
  }

  lemma PartsStand(o: Outside, b: seq<Byte>, m: Bundle, p1: nat, p2: nat, p3: nat, p4: nat)
    requires |m.pool| <= U32 && |m.nodes| <= U32
    requires Decode(b, 0) == Ok(|m.pool|, p1)
    requires DecodeList(EntryItem(b), p1, 0, |m.pool|) == Ok(m.pool, p2)
    requires Decode(b, p2) == Ok(|m.nodes|, p3)
    requires DecodeList(NodeItem(o, b, |m.pool|), p3, 0, |m.nodes|) == Ok(m.nodes, p4)
    requires DecodeRef(b, p4, |m.nodes|, |m.pool|) == Ok(m.result, |b|)
    ensures EncodeBundle(m) == b
  {
    CountsSpelt(b, |m.pool|, p1, p2, |m.nodes|, p3);
    PartsSpelt(o, b, p1, p3, |m.pool|, |m.nodes|);
    RefDecoded(b, p4, |m.nodes|, |m.pool|);
    Assemble(b, Encode(|m.pool|), EncodeList(EncodeEntry, m.pool), Encode(|m.nodes|), EncodeList(EncodeNode, m.nodes),
             EncodeRef(m.result), p1, p2, p3, p4);
  }

  /** Re-encoding what was decoded returns the exact bytes. */
  lemma EncodeDecode(o: Outside, b: seq<Byte>)
    requires DecodeBundle(o, b).Ok?
    requires var m := DecodeBundle(o, b).value; |m.pool| <= U32 && |m.nodes| <= U32
    ensures var m := DecodeBundle(o, b).value; EncodeBundle(m) == b && WellFormed(o, m)
  {
    var p1, p2, p3, p4 := DecodeParts(o, b);
    PartsFit(o, b, DecodeBundle(o, b).value, p1, p2, p3, p4);
    PartsStand(o, b, DecodeBundle(o, b).value, p1, p2, p3, p4);
  }

  /**
   * The codec in both directions, for counts within 32 bits: the accepted byte strings are exactly the encodings of the
   * well-formed bundles that obey the block rules, and no two byte strings spell the same bundle.
   */
  lemma CanonicalCodec(o: Outside, b: seq<Byte>, m: Bundle)
    requires |m.pool| <= U32 && |m.nodes| <= U32
    ensures Deserialized(o, b) == Some(m) <==> b == EncodeBundle(m) && WellFormed(o, m) && BlockRules(m, o.unit)
  {
    if WellFormed(o, m) {
      DecodeEncode(o, m);
    }
    if DecodeBundle(o, b).Ok? && DecodeBundle(o, b).value == m {
      EncodeDecode(o, b);
    }
  }

  /** An accepted bundle meets what the emitter and the block verifier index by. */
  lemma AcceptedResolves(o: Outside, m: Bundle)
    requires WellFormed(o, m)
    ensures Topological(m) && RefsResolve(m)
  {
    forall u, r | 0 <= u < |m.nodes| && r in Uses(m.nodes[u])
      ensures InRange(m, r, u)
    {
      assert NodeFits(o, m.nodes[u], u, |m.pool|);
      assert RefFits(r, u, |m.pool|) by {
        if m.nodes[u].CIf? {
          assert r == [m.nodes[u].cond, m.nodes[u].then_, m.nodes[u].else_][0];
        }
      }
    }
  }

  // ----- the bytes themselves -----

  /** A bundle with every kind of node and of reference. */
  function Sample(hash: Hash, target: Hash): Bundle {
    Bundle(
      [PoolEntry(hash, [7, 8])],
      [CDeterminate, CBlock, CEnd(NodeRef(0)), CBlock, CEnd(PoolRef(0)),
       CIf(PoolRef(0), NodeRef(2), NodeRef(4)), CCall(target, [NodeRef(5), PoolRef(0)], [97])],
      NodeRef(6))
  }

  lemma EncodeCons<T>(one: T -> seq<Byte>, x: T, xs: seq<T>)
    ensures EncodeList(one, [x] + xs) == one(x) + EncodeList(one, xs)
  {
    assert ([x] + xs)[1..] == xs;
  }

  lemma EncodePair(a: Ref, c: Ref)
    ensures EncodeRefs([a, c]) == EncodeRef(a) + EncodeRef(c)
  {
    EncodeCons(EncodeRef, c, []);
    EncodeCons(EncodeRef, a, [c]);
    assert [c] + [] == [c] && [a] + [c] == [a, c];
  }

  lemma EncodeTriple(a: Ref, c: Ref, d: Ref)
    ensures EncodeRefs([a, c, d]) == EncodeRef(a) + EncodeRef(c) + EncodeRef(d)
  {
    EncodePair(c, d);
    EncodeCons(EncodeRef, a, [c, d]);
    assert [a] + [c, d] == [a, c, d];
  }

  /** The kinds, the order of a node's fields, and the reference tags, byte for byte. */
  lemma NodeBytes(target: Hash)
    ensures EncodeNode(CDeterminate) == [2] && EncodeNode(CBlock) == [3]
    ensures EncodeNode(CEnd(NodeRef(0))) == [4, 0] && EncodeNode(CEnd(PoolRef(0))) == [4, 1]
    ensures EncodeNode(CIf(PoolRef(0), NodeRef(2), NodeRef(4))) == [1, 1, 4, 8]
    ensures EncodeNode(CCall(target, [NodeRef(5), PoolRef(0)], [97])) == [0, 1, 97] + target + [2, 10, 1]
  {
    EncodeTriple(PoolRef(0), NodeRef(2), NodeRef(4));
    EncodePair(NodeRef(5), PoolRef(0));
  }

  lemma NextNode(x: Node, bytes: seq<Byte>, xs: seq<Node>, rest: seq<Byte>)
    requires EncodeNode(x) == bytes && EncodeList(EncodeNode, xs) == rest
    ensures EncodeList(EncodeNode, [x] + xs) == bytes + rest
  {
    EncodeCons(EncodeNode, x, xs);
  }

  lemma SampleTail(hash: Hash, target: Hash)
    ensures EncodeList(EncodeNode, Sample(hash, target).nodes[4..]) ==
      [4, 1, 1, 1, 4, 8] + ([0, 1, 97] + target + [2, 10, 1])
  {
    NodeBytes(target);
    hide EncodeNode, EncodeList, EncodeRef, EncodeRefs;
    var ns := Sample(hash, target).nodes;
    var call := [0, 1, 97] + target + [2, 10, 1];
    NoneEncoded(ns[7..]);
    NextNode(ns[6], call, ns[7..], []);
    Rejoin(ns, 6);
    assert call + [] == call;
    NextNode(ns[5], [1, 1, 4, 8], ns[6..], call);
    Rejoin(ns, 5);
    NextNode(ns[4], [4, 1], ns[5..], [1, 1, 4, 8] + call);
    Rejoin(ns, 4);
  }

  lemma SampleNodes(hash: Hash, target: Hash)
    ensures EncodeList(EncodeNode, Sample(hash, target).nodes) ==
      [2, 3, 4, 0, 3] + ([4, 1, 1, 1, 4, 8] + ([0, 1, 97] + target + [2, 10, 1]))
  {
    NodeBytes(target);
    SampleTail(hash, target);
    hide EncodeNode, EncodeList, EncodeRef, EncodeRefs;
    var ns := Sample(hash, target).nodes;
    var tail := EncodeList(EncodeNode, ns[4..]);
    NextNode(ns[3], [3], ns[4..], tail);
    Rejoin(ns, 3);
    NextNode(ns[2], [4, 0], ns[3..], [3] + tail);
    Rejoin(ns, 2);
    NextNode(ns[1], [3], ns[2..], [4, 0] + ([3] + tail));
    Rejoin(ns, 1);
    NextNode(ns[0], [2], ns[1..], [3] + ([4, 0] + ([3] + tail)));
    Rejoin(ns, 0);
    assert ns[0..] == ns;
    assert [2] + ([3] + ([4, 0] + ([3] + tail))) == [2, 3, 4, 0, 3] + tail;
  }

  lemma NoneEncoded(xs: seq<Node>)
    requires xs == []
    ensures EncodeList(EncodeNode, xs) == []
  {
  }

  lemma Rejoin<T>(xs: seq<T>, i: nat)
    requires i < |xs|
    ensures [xs[i]] + xs[i + 1..] == xs[i..]
  {
  }

  lemma SampleEntries(hash: Hash)
    ensures EncodeList(EncodeEntry, [PoolEntry(hash, [7, 8])]) == hash + [2, 7, 8]
  {
    var entry := PoolEntry(hash, [7, 8]);
    EncodeCons(EncodeEntry, entry, []);
    assert [entry] + [] == [entry];
    assert EncodeBytes([7, 8]) == [2, 7, 8];
  }

  /** The canonical bytes of the sample, in full. */
  lemma SampleBytes(hash: Hash, target: Hash)
    ensures EncodeBundle(Sample(hash, target)) ==
      [1] + ((hash + [2, 7, 8]) +
             ([7] + (([2, 3, 4, 0, 3] + ([4, 1, 1, 1, 4, 8] + ([0, 1, 97] + target + [2, 10, 1]))) + [12])))
  {
    SampleNodes(hash, target);
    SampleEntries(hash);
    hide EncodeList;
  }
}
