/** From canonical bytes to an emitted program. */
module Pipeline {
  import opened CoreIr
  import opened Blocks
  import opened Codec
  import opened CanonReader
  import opened LastUse
  import opened Emit
  import opened MoveSafety
  import opened Backend

  /** What the decoder accepts meets what the compiler asks of its input. */
  lemma AcceptedCompiles(o: Outside, bytes: seq<Byte>, b: Bundle)
    requires Deserialized(o, bytes) == Some(b) && |b.pool| <= U32 && |b.nodes| <= RESULT_USE
    ensures Topological(b) && BlockRules(b, o.unit) && WellFormed(o, b) && EncodeBundle(b) == bytes
  {
    CanonicalCodec(o, bytes, b);
    AcceptedResolves(o, b);
  }

  /** What a pool entry is, by the type tables; `None` where they refuse it. */
  type Classifier = PoolEntry -> Option<PoolKind>

  /** The kinds of all pool entries, or none when some entry is refused. */
  function KindsOf(classify: Classifier, pool: seq<PoolEntry>): (kinds: Option<seq<PoolKind>>)
    ensures kinds.Some? <==> forall e :: e in pool ==> classify(e).Some?
    ensures kinds.Some? ==> |kinds.value| == |pool|
    ensures kinds.Some? ==> forall q :: 0 <= q < |pool| ==> classify(pool[q]) == Some(kinds.value[q])
  {
    if pool == [] then Some([]) else
    var n := |pool| - 1;
    assert pool == pool[..n] + [pool[n]];
    var init := KindsOf(classify, pool[..n]);
    if init.None? || classify(pool[n]).None? then None else Some(init.value + [classify(pool[n]).value])
  }

  method ClassifyPool(classify: Classifier, pool: seq<PoolEntry>) returns (kinds: Option<seq<PoolKind>>)
    ensures kinds == KindsOf(classify, pool)
  {
    var done: seq<PoolKind> := [];
    for q := 0 to |pool|
      invariant KindsOf(classify, pool[..q]) == Some(done)
    {
      assert pool[..q + 1][..q] == pool[..q];
      var kind := classify(pool[q]);
      if kind.None? {
        return None;
      }
      done := done + [kind.value];
    }
    assert pool[..|pool|] == pool;
    kinds := Some(done);
  }

  /**
   * Bytes in, program out. A program comes out exactly when the bytes are the canonical encoding of a bundle that obeys
   * the block rules, the type tables know every pool entry, and no type gate refuses; it is then the emission that
   * preserves the bundle's meaning and moves safely.
   */
  method Build(o: Outside, bytes: seq<Byte>, tables: Tables, classify: Classifier)
    returns (out: Option<Program>, ghost j: Job, ghost m: Option<Moving>)
    requires Deserialized(o, bytes).Some? ==>
      |Deserialized(o, bytes).value.pool| <= U32 && |Deserialized(o, bytes).value.nodes| <= RESULT_USE
    ensures Readied(o, bytes, classify) ==>
      && j.b == Deserialized(o, bytes).value && j.tables == tables && Some(j.kinds) == KindsOf(classify, j.b.pool)
      && Ready(j) && MovesDecided(j)
    ensures out.Some? <==>
      && Readied(o, bytes, classify)
      && !IsFnRef(j.kinds, j.b.result) && forall i :: 0 <= i < |j.b.nodes| ==> !Gated(j, i)
    ensures out.Some? ==> out.value.result == Deserialized(o, bytes).value.result
    ensures out.Some? ==>
      EncodeBundle(j.b) == bytes && m.Some? && m.value.j == j && m.value.unit == o.unit && EmittedAs(m.value, out.value)
  {
    var answer := Deserialize(o, bytes);
    j, m := Job(tables, [], Bundle([], [], PoolRef(0)), BlockTables([], [], []), {}), None;
    if !answer.Accepted? {
      return None, j, m;
    }
    var b := answer.bundle;
    AcceptedCompiles(o, bytes, b);
    var kinds := ClassifyPool(classify, b.pool);
    if kinds.None? {
      return None, j, m;
    }
    out, j, m := Compile(tables, kinds.value, b, o.unit);
  }

  /** The bytes are accepted, and every pool entry has a kind. */
  ghost predicate Readied(o: Outside, bytes: seq<Byte>, classify: Classifier) {
    Deserialized(o, bytes).Some? && KindsOf(classify, Deserialized(o, bytes).value.pool).Some?
  }
}
