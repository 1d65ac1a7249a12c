/** Move on last use: which reads of a value may take it instead of copying it. */
module LastUse {
  import opened CoreIr
  import opened Counting

  /** The use index of the bundle's result; node indices stay below it. */
  const RESULT_USE: nat := 0xFFFF_FFFF

  type MoveSet = set<(Ref, nat)>

  predicate UsedAt(b: Bundle, r: Ref, u: nat) {
    if u == RESULT_USE then r == b.result else u < |b.nodes| && r in Uses(b.nodes[u])
  }

  predicate UsedOnceAt(b: Bundle, r: Ref, u: nat) {
    u == RESULT_USE || (u < |b.nodes| && Count(Uses(b.nodes[u]), r) == 1)
  }

  /** A value moves at its last use: its only use, or the last of several uses that all stand in top-level nodes. */
  ghost predicate MayMove(b: Bundle, top: set<nat>, r: Ref, u: nat) {
    && UsedAt(b, r, u) && UsedOnceAt(b, r, u)
    && (forall v: nat :: UsedAt(b, r, v) ==> v <= u)
    && (|| (forall v: nat :: UsedAt(b, r, v) ==> v == u)
        || (u != RESULT_USE && forall v: nat :: UsedAt(b, r, v) ==> v in top))
  }

  ghost predicate MovesAtLastUse(b: Bundle, top: set<nat>, moves: MoveSet) {
    forall r, u: nat {:trigger MayMove(b, top, r, u)} :: (r, u) in moves ==> MayMove(b, top, r, u)
  }

  /** How often node `u` (or the result) uses `r`. */
  function Tally(b: Bundle, r: Ref, u: nat): nat {
    if u == RESULT_USE then (if r == b.result then 1 else 0)
    else if u < |b.nodes| then Count(Uses(b.nodes[u]), r)
    else 0
  }

  /** `at` lists the uses of `r`, each as often as it occurs. */
  ghost predicate ListsUses(b: Bundle, r: Ref, at: seq<nat>) {
    forall u: nat :: Count(at, u) == Tally(b, r, u)
  }

  function Max(at: seq<nat>): (m: nat)
    requires at != []
    ensures m in at && forall v :: v in at ==> v <= m
  {
    if |at| == 1 then at[0] else
    var m := Max(at[1..]);
    assert at == [at[0]] + at[1..];
    if at[0] > m then at[0] else m
  }

  /** What `LastUses` decides from one reference's recorded uses. */
  predicate MovesFrom(at: seq<nat>, top: set<nat>)
    requires at != []
  {
    |at| == 1 || (Max(at) != RESULT_USE && Count(at, Max(at)) == 1 && forall v :: v in at ==> v in top)
  }

  lemma TallyIsUse(b: Bundle, r: Ref, u: nat)
    requires |b.nodes| <= RESULT_USE
    ensures Tally(b, r, u) > 0 <==> UsedAt(b, r, u)
    ensures Tally(b, r, u) == 1 <==> UsedAt(b, r, u) && UsedOnceAt(b, r, u)
  {
    if u < |b.nodes| {
      CountIn(Uses(b.nodes[u]), r);
    }
  }

  lemma DecisionIsMayMove(b: Bundle, top: set<nat>, r: Ref, at: seq<nat>, u: nat)
    requires |b.nodes| <= RESULT_USE && ListsUses(b, r, at)
    ensures MayMove(b, top, r, u) <==> at != [] && u == Max(at) && MovesFrom(at, top)
  {
    forall v: nat
      ensures v in at <==> UsedAt(b, r, v)
      ensures Count(at, v) == 1 <==> UsedAt(b, r, v) && UsedOnceAt(b, r, v)
    {
      CountIn(at, v);
      TallyIsUse(b, r, v);
    }
    if at != [] {
      CountAll(at, Max(at));
      assert forall i :: 0 <= i < |at| ==> at[i] in at;
      assert |at| == 1 <==> Count(at, Max(at)) == 1 && forall v: nat :: v in at ==> v == Max(at);
    }
  }

  method LastUses(b: Bundle, top: set<nat>) returns (out: MoveSet)
    requires |b.nodes| <= RESULT_USE
    ensures forall r, u: nat :: (r, u) in out <==> MayMove(b, top, r, u)
  {
    var uses := RecordUses(b);
    out := {};
    var keys := uses.Keys;
    while keys != {}
      invariant keys <= uses.Keys
      invariant forall r, u: nat :: (r, u) in out <==>
                  r in uses && r !in keys && u == Max(uses[r]) && MovesFrom(uses[r], top)
    {
      var key :| key in keys;
      if MovesFrom(uses[key], top) {
        out := out + {(key, Max(uses[key]))};
      }
      keys := keys - {key};
    }
    forall r, u: nat
      ensures (r, u) in out <==> MayMove(b, top, r, u)
    {
      DecisionIsMayMove(b, top, r, Lookup(uses, r), u);
    }
  }

  function Lookup(uses: map<Ref, seq<nat>>, r: Ref): seq<nat> {
    if r in uses then uses[r] else []
  }

  /** The uses recorded of the first `n` nodes. */
  ghost predicate RecordedBefore(b: Bundle, uses: map<Ref, seq<nat>>, n: nat) {
    && (forall r :: r in uses ==> uses[r] != [])
    && (forall r, u: nat {:trigger Count(Lookup(uses, r), u)} ::
          Count(Lookup(uses, r), u) == if u < n && u < |b.nodes| then Count(Uses(b.nodes[u]), r) else 0)
  }

  /** One list of use indices per reference, in node order, the result last. */
  method RecordUses(b: Bundle) returns (uses: map<Ref, seq<nat>>)
    requires |b.nodes| <= RESULT_USE
    ensures forall r :: r in uses ==> uses[r] != []
    ensures forall r :: ListsUses(b, r, Lookup(uses, r))
  {
    uses := map[];
    forall r, u: nat ensures Count(Lookup(uses, r), u) == 0 { assert Lookup(uses, r) == []; }
    var i := 0;
    while i < |b.nodes|
      invariant i <= |b.nodes| && RecordedBefore(b, uses, i)
    {
      uses := RecordNode(uses, Uses(b.nodes[i]), i);
      i := i + 1;
    }
    ghost var before := uses;
    uses := uses[b.result := Lookup(uses, b.result) + [RESULT_USE]];
    forall r, u: nat
      ensures Count(Lookup(uses, r), u) == Tally(b, r, u)
    {
      assert Count(Lookup(before, r), u) == if u < |b.nodes| then Count(Uses(b.nodes[u]), r) else 0;
      CountPush(Lookup(before, b.result), RESULT_USE, u);
    }
  }

  method RecordNode(before: map<Ref, seq<nat>>, refs: seq<Ref>, i: nat) returns (uses: map<Ref, seq<nat>>)
    requires forall r :: r in before ==> before[r] != []
    ensures forall r :: r in uses ==> uses[r] != []
    ensures forall r, u: nat :: Count(Lookup(uses, r), u) ==
              Count(Lookup(before, r), u) + if u == i then Count(refs, r) else 0
  {
    uses := before;
    var a := 0;
    assert forall r :: Count(refs[..0], r) == 0;
    while a < |refs|
      invariant a <= |refs|
      invariant forall r :: r in uses ==> uses[r] != []
      invariant forall r, u: nat :: Count(Lookup(uses, r), u) ==
                  Count(Lookup(before, r), u) + if u == i then Count(refs[..a], r) else 0
    {
      var after := uses[refs[a] := Lookup(uses, refs[a]) + [i]];
      forall r, u: nat
        ensures Count(Lookup(after, r), u) ==
          Count(Lookup(before, r), u) + if u == i then Count(refs[..a + 1], r) else 0
      {
        CountPush(Lookup(uses, r), i, u);
        assert refs[..a + 1] == refs[..a] + [refs[a]];
        CountPush(refs[..a], refs[a], r);
      }
      uses := after;
      a := a + 1;
    }
    assert refs[..a] == refs;
  }
}
