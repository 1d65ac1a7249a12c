/** The reader and the writer of canonical bytes as they run: a cursor that advances, lists that grow. */
module CanonReader {
  import opened CoreIr
  import opened Varint
  import opened Codec
  import Blocks

  /** Items already read, in front of the reading of the others. */
  function Prepend<T>(done: seq<T>, r: Parse<seq<T>>): Parse<seq<T>> {
    match r
    case Err(e) => Err(e)
    case Ok(rest, end) => Ok(done + rest, end)
  }

  lemma PrependNothing<T>(done: seq<T>, r: Parse<seq<T>>)
    ensures Prepend([], r) == r
    ensures r.Ok? && r.value == [] ==> Prepend(done, r) == Ok(done, r.next)
  {
    if r.Ok? {
      assert [] + r.value == r.value;
      assert done + [] == done;
    }
  }

  lemma PrependStep<T>(item: Item<T>, done: seq<T>, pos: nat, i: nat, n: nat)
    requires n > 0
    ensures item(i, pos).Err? ==> Prepend(done, DecodeList(item, pos, i, n)) == Err(item(i, pos).error)
    ensures item(i, pos).Ok? ==>
      Prepend(done, DecodeList(item, pos, i, n)) ==
      Prepend(done + [item(i, pos).value], DecodeList(item, item(i, pos).next, i + 1, n - 1))
  {
    if item(i, pos).Ok? {
      var Ok(x, next) := item(i, pos);
      if DecodeList(item, next, i + 1, n - 1).Ok? {
        var rest := DecodeList(item, next, i + 1, n - 1).value;
        assert done + ([x] + rest) == done + [x] + rest;
      }
    }
  }

  class Reader {
    const b: seq<Byte>
    var pos: nat

    constructor (bytes: seq<Byte>)
      ensures b == bytes && pos == 0
    {
      b, pos := bytes, 0;
    }

    method Take(n: nat) returns (r: Parse<seq<Byte>>)
      requires pos <= |b|
      modifies this
      ensures r == Codec.Take(b, old(pos), n) && pos <= |b|
      ensures pos == if r.Ok? then r.next else old(pos)
    {
      if |b| - pos < n {
        return Err(Truncated);
      }
      r := Ok(b[pos..pos + n], pos + n);
      pos := pos + n;
    }

    method Varint() returns (r: Parse<nat>)
      requires pos <= |b|
      modifies this
      ensures r == Decode(b, old(pos)) && pos <= |b|
      ensures r.Ok? ==> pos == r.next
    {
      r := Read(b, pos);
      if r.Ok? {
        DecodesTo(b, pos, r.value, r.next);
        pos := r.next;
      }
    }

    method Noderef(nodes: nat, pool: nat) returns (r: Parse<Ref>)
      requires pos <= |b|
      modifies this
      ensures r == DecodeRef(b, old(pos), nodes, pool) && pos <= |b|
      ensures r.Ok? ==> pos == r.next
    {
      var v := Varint();
      if v.Err? {
        return Err(v.error);
      }
      var idx := v.value / 2;
      if v.value % 2 == 1 {
        r := if idx >= pool then Err(OutOfRange) else Ok(PoolRef(idx % U32), pos);
      } else {
        r := if idx >= nodes then Err(OutOfRange) else Ok(NodeRef(idx % U32), pos);
      }
    }

    method Bytes() returns (r: Parse<seq<Byte>>)
      requires pos <= |b|
      modifies this
      ensures r == DecodeBytes(b, old(pos)) && pos <= |b|
      ensures r.Ok? ==> pos == r.next
    {
      var n := Varint();
      if n.Err? {
        return Err(n.error);
      }
      r := Take(n.value);
    }

    method Refs(n: nat, nodes: nat, pool: nat) returns (r: Parse<seq<Ref>>)
      requires pos <= |b|
      modifies this
      ensures r == DecodeRefs(b, old(pos), n, nodes, pool) && pos <= |b|
      ensures r.Ok? ==> pos == r.next
    {
      ghost var item := RefItem(b, nodes, pool);
      var refs: seq<Ref> := [];
      PrependNothing(refs, DecodeRefs(b, pos, n, nodes, pool));
      for k := 0 to n
        invariant pos <= |b|
        invariant Prepend(refs, DecodeList(item, pos, k, n - k)) == DecodeRefs(b, old(pos), n, nodes, pool)
      {
        PrependStep(item, refs, pos, k, n - k);
        var one := Noderef(nodes, pool);
        if one.Err? {
          return Err(one.error);
        }
        refs := refs + [one.value];
      }
      PrependNothing(refs, Ok([], pos));
      r := Ok(refs, pos);
    }

    method Pool(n: nat) returns (r: Parse<seq<PoolEntry>>)
      requires pos <= |b|
      modifies this
      ensures r == DecodeList(EntryItem(b), old(pos), 0, n) && pos <= |b|
      ensures r.Ok? ==> pos == r.next
    {
      ghost var item := EntryItem(b);
      var pool: seq<PoolEntry> := [];
      PrependNothing(pool, DecodeList(item, pos, 0, n));
      for k := 0 to n
        invariant pos <= |b|
        invariant Prepend(pool, DecodeList(item, pos, k, n - k)) == DecodeList(item, old(pos), 0, n)
      {
        PrependStep(item, pool, pos, k, n - k);
        var hash := Take(32);
        if hash.Err? {
          return Err(hash.error);
        }
        var payload := Bytes();
        if payload.Err? {
          return Err(payload.error);
        }
        pool := pool + [PoolEntry(hash.value, payload.value)];
      }
      PrependNothing(pool, Ok([], pos));
      r := Ok(pool, pos);
    }

    method Call(o: Outside, i: nat, pool: nat) returns (r: Parse<Node>)
      requires pos <= |b|
      modifies this
      ensures r == DecodeCall(o, b, old(pos), i, pool) && pos <= |b|
      ensures r.Ok? ==> pos == r.next
    {
      var name := Bytes();
      if name.Err? {
        return Err(name.error);
      }
      if !o.utf8(name.value) {
        return Err(BadUtf8);
      }
      var target := Take(32);
      if target.Err? {
        return Err(target.error);
      }
      var argc := Varint();
      if argc.Err? {
        return Err(argc.error);
      }
      var args := Refs(argc.value, i, pool);
      r := if args.Err? then Err(args.error) else Ok(CCall(target.value, args.value, name.value), pos);
    }

    method Node(o: Outside, i: nat, pool: nat) returns (r: Parse<Node>)
      requires pos <= |b|
      modifies this
      ensures r == DecodeNode(o, b, old(pos), i, pool) && pos <= |b|
      ensures r.Ok? ==> pos == r.next
    {
      var kind := Varint();
      if kind.Err? {
        return Err(kind.error);
      }
      match kind.value {
        case 0 => r := Call(o, i, pool);
        case 1 =>
          ghost var start := pos;
          var refs := Refs(3, i, pool);
          if refs.Err? {
            return Err(refs.error);
          }
          DecodeCount(RefItem(b, i, pool), start, 0, 3);
          r := Ok(CIf(refs.value[0], refs.value[1], refs.value[2]), pos);
        case 2 => r := Ok(CDeterminate, pos);
        case 3 => r := Ok(CBlock, pos);
        case 4 =>
          var value := Noderef(i, pool);
          r := if value.Err? then Err(value.error) else Ok(CEnd(value.value), pos);
        case _ => r := Err(BadKind);
      }
    }

    method Nodes(o: Outside, n: nat, pool: nat) returns (r: Parse<seq<CoreIr.Node>>)
      requires pos <= |b|
      modifies this
      ensures r == DecodeList(NodeItem(o, b, pool), old(pos), 0, n) && pos <= |b|
      ensures r.Ok? ==> pos == r.next
    {
      hide DecodeNode;
      ghost var item := NodeItem(o, b, pool);
      var nodes: seq<CoreIr.Node> := [];
      PrependNothing(nodes, DecodeList(item, pos, 0, n));
      for i := 0 to n
        invariant pos <= |b|
        invariant Prepend(nodes, DecodeList(item, pos, i, n - i)) == DecodeList(item, old(pos), 0, n)
      {
        PrependStep(item, nodes, pos, i, n - i);
        var one := Node(o, i, pool);
        if one.Err? {
          return Err(one.error);
        }
        nodes := nodes + [one.value];
      }
      PrependNothing(nodes, Ok([], pos));
      r := Ok(nodes, pos);
    }

    method Bundle(o: Outside) returns (r: Parse<CoreIr.Bundle>)
      requires pos == 0
      modifies this
      ensures r == DecodeBundle(o, b)
    {
      var pools := Varint();
      if pools.Err? {
        return Err(pools.error);
      }
      var pool := Pool(pools.value);
      if pool.Err? {
        return Err(pool.error);
      }
      var count := Varint();
      if count.Err? {
        return Err(count.error);
      }
      var nodes := Nodes(o, count.value, pools.value);
      if nodes.Err? {
        return Err(nodes.error);
      }
      var result := Noderef(count.value, pools.value);
      if result.Err? {
        return Err(result.error);
      }
      r := if pos != |b| then Err(Trailing) else Ok(CoreIr.Bundle(pool.value, nodes.value, result.value), pos);
    }
  }

  /** Truncating an index to 32 bits leaves it in range, so whatever was decoded can be indexed, however long it is. */
  predicate RefsBehind(n: Node, i: nat, pool: nat) {
    forall r :: r in Uses(n) ==> RefFits(r, i, pool)
  }

  lemma {:induction false} DecodedRefsResolve(b: seq<Byte>, pos: nat, k: nat, n: nat, nodes: nat, pool: nat)
    requires DecodeList(RefItem(b, nodes, pool), pos, k, n).Ok?
    ensures forall r :: r in DecodeList(RefItem(b, nodes, pool), pos, k, n).value ==> RefFits(r, nodes, pool)
    decreases n
  {
    if n > 0 {
      DecodedRefsResolve(b, RefItem(b, nodes, pool)(k, pos).next, k + 1, n - 1, nodes, pool);
    }
  }

  lemma DecodedNodeResolves(o: Outside, b: seq<Byte>, pos: nat, i: nat, pool: nat)
    requires DecodeNode(o, b, pos, i, pool).Ok?
    ensures RefsBehind(DecodeNode(o, b, pos, i, pool).value, i, pool)
  {
    var Ok(kind, p) := Decode(b, pos);
    if kind == 0 {
      var p2 := Codec.Take(b, DecodeBytes(b, p).next, 32).next;
      var Ok(argc, p3) := Decode(b, p2);
      DecodedRefsResolve(b, p3, 0, argc, i, pool);
    } else if kind == 1 {
      DecodedRefsResolve(b, p, 0, 3, i, pool);
    }
  }

  lemma {:induction false} DecodedNodesResolve(o: Outside, b: seq<Byte>, pos: nat, i: nat, n: nat, pool: nat)
    requires DecodeList(NodeItem(o, b, pool), pos, i, n).Ok?
    ensures var ns := DecodeList(NodeItem(o, b, pool), pos, i, n).value;
      |ns| == n && forall k :: 0 <= k < n ==> RefsBehind(ns[k], i + k, pool)
    decreases n
  {
    if n > 0 {
      var item := NodeItem(o, b, pool);
      var Ok(x, p) := item(i, pos);
      DecodedNodeResolves(o, b, pos, i, pool);
      DecodedNodesResolve(o, b, p, i + 1, n - 1, pool);
      var rest := DecodeList(item, p, i + 1, n - 1).value;
      forall k | 0 <= k < n
        ensures RefsBehind(([x] + rest)[k], i + k, pool)
      {
        if k > 0 {
          assert RefsBehind(rest[k - 1], (i + 1) + (k - 1), pool);
        }
      }
    }
  }

  lemma DecodedResolves(o: Outside, b: seq<Byte>)
    requires DecodeBundle(o, b).Ok?
    ensures RefsResolve(DecodeBundle(o, b).value)
  {
    hide DecodeBundle, DecodeList, Decode;
    var m := DecodeBundle(o, b).value;
    var p1, p2, p3, p4 := DecodeParts(o, b);
    DecodedNodesResolve(o, b, p3, 0, |m.nodes|, |m.pool|);
    forall u, r | 0 <= u < |m.nodes| && r in Uses(m.nodes[u])
      ensures InRange(m, r, |m.nodes|)
    {
      assert RefsBehind(m.nodes[u], 0 + u, |m.pool|);
    }
  }

  datatype Answer = Accepted(bundle: Bundle) | Unreadable(error: Error) | Misplaced(rule: nat)

  method Deserialize(o: Outside, bytes: seq<Byte>) returns (r: Answer)
    ensures r.Accepted? <==> Deserialized(o, bytes).Some?
    ensures r.Accepted? ==> Deserialized(o, bytes) == Some(r.bundle)
    ensures r.Unreadable? <==> DecodeBundle(o, bytes).Err?
    ensures r.Unreadable? ==> DecodeBundle(o, bytes).error == r.error
  {
    var reader := new Reader(bytes);
    var m := reader.Bundle(o);
    if m.Err? {
      return Unreadable(m.error);
    }
    DecodedResolves(o, bytes);
    var verdict := Blocks.VerifyBlocks(m.value, o.unit);
    r := if verdict.Accepted? then Accepted(m.value) else Misplaced(verdict.rule);
  }

  // ----- the writer -----

  lemma {:induction false} EncodeListSnoc<T>(one: T -> seq<Byte>, xs: seq<T>, x: T)
    ensures EncodeList(one, xs + [x]) == EncodeList(one, xs) + one(x)
    decreases |xs|
  {
    if xs == [] {
      assert xs + [x] == [x] && [x][1..] == [];
    } else {
      EncodeListSnoc(one, xs[1..], x);
      assert (xs + [x])[1..] == xs[1..] + [x];
      assert (xs + [x])[0] == xs[0];
    }
  }

  lemma EncodeListNext<T>(one: T -> seq<Byte>, xs: seq<T>, k: nat)
    requires k < |xs|
    ensures EncodeList(one, xs[..k + 1]) == EncodeList(one, xs[..k]) + one(xs[k])
  {
    EncodeListSnoc(one, xs[..k], xs[k]);
    assert xs[..k + 1] == xs[..k] + [xs[k]];
  }

  method WriteRefs(buf: seq<Byte>, refs: seq<Ref>) returns (out: seq<Byte>)
    ensures out == buf + EncodeRefs(refs)
  {
    out := buf;
    for k := 0 to |refs|
      invariant out == buf + EncodeRefs(refs[..k])
    {
      EncodeListNext(EncodeRef, refs, k);
      out := Write(out, Tagged(refs[k]));
    }
    assert refs[..|refs|] == refs;
  }

  method WriteBytes(buf: seq<Byte>, data: seq<Byte>) returns (out: seq<Byte>)
    ensures out == buf + EncodeBytes(data)
  {
    out := Write(buf, |data|);
    out := out + data;
  }

  method WriteCall(buf: seq<Byte>, target: Hash, args: seq<Ref>, name: seq<Byte>) returns (out: seq<Byte>)
    ensures out == buf + EncodeCallBody(target, args, name)
  {
    out := WriteBytes(buf, name);
    out := out + target;
    out := Write(out, |args|);
    out := WriteRefs(out, args);
    FourParts(buf, EncodeBytes(name), target, Encode(|args|), EncodeRefs(args));
  }

  lemma FourParts(buf: seq<Byte>, s1: seq<Byte>, s2: seq<Byte>, s3: seq<Byte>, s4: seq<Byte>)
    ensures buf + s1 + s2 + s3 + s4 == buf + (s1 + (s2 + (s3 + s4)))
  {
  }

  method WriteFields(buf: seq<Byte>, n: Node) returns (out: seq<Byte>)
    ensures out == buf + EncodeFields(n)
  {
    match n {
      case CCall(target, args, name) => out := WriteCall(buf, target, args, name);
      case CIf(cond, then_, else_) => out := WriteRefs(buf, [cond, then_, else_]);
      case CDeterminate => out := buf;
      case CBlock => out := buf;
      case CEnd(value) => out := Write(buf, Tagged(value));
    }
  }

  method WriteNode(buf: seq<Byte>, n: Node) returns (out: seq<Byte>)
    ensures out == buf + EncodeNode(n)
  {
    hide EncodeNode, EncodeFields, Encode;
    NodeIsKindAndFields(n);
    out := Write(buf, Kind(n));
    out := WriteFields(out, n);
  }

  method WritePool(buf: seq<Byte>, pool: seq<PoolEntry>) returns (out: seq<Byte>)
    ensures out == buf + EncodeList(EncodeEntry, pool)
  {
    out := buf;
    for k := 0 to |pool|
      invariant out == buf + EncodeList(EncodeEntry, pool[..k])
    {
      EncodeListNext(EncodeEntry, pool, k);
      out := out + pool[k].defHash;
      out := WriteBytes(out, pool[k].payload);
    }
    assert pool[..|pool|] == pool;
  }

  method WriteNodes(buf: seq<Byte>, nodes: seq<Node>) returns (out: seq<Byte>)
    ensures out == buf + EncodeList(EncodeNode, nodes)
  {
    out := buf;
    for k := 0 to |nodes|
      invariant out == buf + EncodeList(EncodeNode, nodes[..k])
    {
      EncodeListNext(EncodeNode, nodes, k);
      out := WriteNode(out, nodes[k]);
    }
    assert nodes[..|nodes|] == nodes;
  }

  method Serialize(m: Bundle) returns (out: seq<Byte>)
    ensures out == EncodeBundle(m)
  {
    hide EncodeList, Encode;
    out := Write([], |m.pool|);
    out := WritePool(out, m.pool);
    out := Write(out, |m.nodes|);
    out := WriteNodes(out, m.nodes);
    out := Write(out, Tagged(m.result));
    FourParts(Encode(|m.pool|), EncodeList(EncodeEntry, m.pool), Encode(|m.nodes|), EncodeList(EncodeNode, m.nodes),
              EncodeRef(m.result));
  }
}
