/** The emitted program passes the borrow checker: every read is in scope and nothing is used after its move. */
module MoveSafety {
  import opened CoreIr
  import opened Counting
  import opened Blocks
  import opened Fault
  import opened RustCode
  import opened LastUse
  import opened Emit

  /** The references whose variables are bound and in scope at position `p`. */
  ghost predicate VisibleAt(m: Moving, p: nat, r: Ref)
    requires p <= |m.j.b.nodes|
  {
    match r
    case PoolRef(q) => q < |m.j.b.pool| && !IsFnRef(m.j.kinds, r)
    case NodeRef(i) => i < p && Readable(m.j.b, StackAt(m.j.b.nodes, p), r)
  }

  ghost predicate MovedBefore(m: Moving, p: nat, r: Ref) {
    exists u: nat :: u < p && (r, u) in m.j.moves
  }

  ghost predicate AllMoved(m: Moving, p: nat, moved: set<Ref>) {
    forall r :: r in moved ==> MovedBefore(m, p, r)
  }

  /** The checker's scope at position `p` has every visible variable, and has moved out only what moved earlier. */
  ghost predicate ScopeAt(m: Moving, p: nat, s: Scope)
    requires p <= |m.j.b.nodes|
  {
    && (forall r :: VisibleAt(m, p, r) ==> r in s.vars)
    && AllMoved(m, p, s.moved)
  }

  /** A verified bundle whose references go back to what is in scope, with the moves its last uses allow. */
  type Moving = m: Verified |
    && Scoped(m.j.b) && Topological(m.j.b) && |m.j.b.nodes| <= RESULT_USE
    && MovesAtLastUse(m.j.b, m.top, m.j.moves)
    witness Emission(Job(Tables((_, _) => None, _ => None, _ => None, {}, []), [],
                         Bundle([PoolEntry([], [])], [], PoolRef(0)), BlockTables([], [], []), {}), [], [], {})

  // ----- scopes -----

  /** A node strictly inside a block has a home at or inside that block. */
  lemma InsideHome(nodes: seq<Node>, block: nat, end: nat, i: nat)
    requires Closes(nodes, block, end) && block < i < end
    ensures HomeOf(nodes, i).Some? && HomeOf(nodes, i).value >= block
  {
    BlockInterior(nodes, block, end);
    var at := if nodes[i].CEnd? then i + 1 else i;
    var s, base := StackAt(nodes, at), StackAt(nodes, block) + [block];
    assert base <= s;
    assert s[|base| - 1] == block;
    if |s| > |base| {
      StackIncreases(nodes, at, |base| - 1, |s| - 1);
    }
  }

  lemma OpenIsEarlier(nodes: seq<Node>, p: nat, b: nat)
    requires p <= |nodes| && b in StackAt(nodes, p)
    ensures b < p
  {
    var q :| 0 <= q < |StackAt(nodes, p)| && StackAt(nodes, p)[q] == b;
    StackPrefix(nodes, p, q);
  }

  /** What is inside a closed block is invisible once the stack is back. */
  lemma ClosedHides(m: Moving, block: nat, end: nat, p: nat, i: nat)
    requires Closes(m.j.b.nodes, block, end) && block < i < end < p <= |m.j.b.nodes|
    requires forall b :: b in StackAt(m.j.b.nodes, p) ==> b < block || b > end
    ensures !VisibleAt(m, p, NodeRef(i))
  {
    InsideHome(m.j.b.nodes, block, end, i);
    HomeIsBlock(m.j.b.nodes, i);
  }

  /** Every node of a block, bar its CEnd, is invisible behind it. */
  lemma BlockHidden(m: Moving, block: nat, end: nat, p: nat)
    requires Closes(m.j.b.nodes, block, end) && block < end < p <= |m.j.b.nodes|
    requires StackAt(m.j.b.nodes, p) == StackAt(m.j.b.nodes, block)
    ensures forall i :: block <= i < end ==> !VisibleAt(m, p, NodeRef(i))
  {
    BlockInterior(m.j.b.nodes, block, end);
    forall i | block <= i < end
      ensures !VisibleAt(m, p, NodeRef(i))
    {
      if block < i {
        forall b | b in StackAt(m.j.b.nodes, p) ensures b < block { OpenIsEarlier(m.j.b.nodes, block, b); }
        ClosedHides(m, block, end, p, i);
      }
    }
  }

  /** A scope stays right over a stretch if it gains whatever the stretch makes visible. */
  lemma Advance(m: Moving, p: nat, q: nat, s: Scope, s': Scope)
    requires p <= q <= |m.j.b.nodes| && ScopeAt(m, p, s) && s.vars <= s'.vars
    requires StackAt(m.j.b.nodes, q) == StackAt(m.j.b.nodes, p)
    requires forall i :: p <= i < q && VisibleAt(m, q, NodeRef(i)) ==> NodeRef(i) in s'.vars
    requires AllMoved(m, q, s'.moved)
    ensures ScopeAt(m, q, s')
  {
    forall r | VisibleAt(m, q, r)
      ensures r in s'.vars
    {
      if r.PoolRef? || r.i < p {
        assert VisibleAt(m, p, r);
      }
    }
  }

  lemma MovedLater(m: Moving, p: nat, q: nat, moved: set<Ref>)
    requires p <= q && AllMoved(m, p, moved)
    ensures AllMoved(m, q, moved)
  {
  }

  lemma EnterBlock(m: Moving, block: nat, s: Scope)
    requires block < |m.j.b.nodes| && m.j.b.nodes[block].CBlock? && ScopeAt(m, block, s)
    ensures ScopeAt(m, block + 1, s)
  {
    forall r | VisibleAt(m, block + 1, r)
      ensures r in s.vars
    {
      if r.NodeRef? && HomeOf(m.j.b.nodes, r.i).Some? {
        HomeIsBlock(m.j.b.nodes, r.i);
      }
      assert VisibleAt(m, block, r);
    }
    MovedLater(m, block, block + 1, s.moved);
  }

  // ----- reads -----

  /** A value read at or after position `p` has not been moved out before it. */
  lemma Unmoved(m: Moving, p: nat, u: nat, r: Ref, s: Scope)
    requires p <= |m.j.b.nodes| && ScopeAt(m, p, s) && p <= u && UsedAt(m.j.b, r, u)
    ensures r !in s.moved
  {
    forall v: nat | v < p
      ensures (r, v) !in m.j.moves
    {
      assert (r, v) in m.j.moves ==> MayMove(m.j.b, m.top, r, v);
    }
  }

  lemma ReadIsFree(m: Moving, p: nat, r: Ref, s: Scope)
    requires p < |m.j.b.nodes| && ScopeAt(m, p, s)
    requires r in Uses(m.j.b.nodes[p]) && !IsFnRef(m.j.kinds, r)
    ensures Free(s, r)
  {
    Unmoved(m, p, p, r, s);
    assert VisibleAt(m, p, r);
  }

  // ----- calls -----

  /** Over the arguments after `done`: each is free, and one that was moved among `done` does not come back. */
  lemma {:induction false} ArgsPass(m: Moving, at: nat, slots: seq<Slot>, native: Option<seq<NativeArg>>,
                                    done: seq<Ref>, args: seq<Ref>, s0: Scope, s: Scope)
    requires at < |m.j.b.nodes| && ScopeAt(m, at, s0) && done + args == Uses(m.j.b.nodes[at])
    requires |slots| == |args| && (native.Some? ==> |native.value| == |args|)
    requires EmitArgs(m.j, at, slots, native, args).Some?
    requires s.vars == s0.vars && forall r :: r in s.moved ==> r in s0.moved || (r in done && (r, at) in m.j.moves)
    ensures CheckArgs(EmitArgs(m.j, at, slots, native, args).value, s).Some?
    ensures forall r :: r in CheckArgs(EmitArgs(m.j, at, slots, native, args).value, s).value ==>
              r in s0.moved || (r, at) in m.j.moves
    decreases |args|
  {
    if args != [] {
      var rest := if native.Some? then Some(native.value[1..]) else None;
      var exprs, r := EmitArgs(m.j, at, slots, native, args).value, args[0];
      assert exprs[1..] == EmitArgs(m.j, at, slots[1..], rest, args[1..]).value;
      assert (done + [r]) + args[1..] == Uses(m.j.b.nodes[at]);
      if !exprs[0].Path? {
        assert r in Uses(m.j.b.nodes[at]);
        ReadIsFree(m, at, r, s0);
        NotTwice(m, at, done, args);
      }
      var s' := match exprs[0]
                case Own(t) => s.(moved := s.moved + MovedBy(t))
                case _ => s;
      ArgsPass(m, at, slots[1..], rest, done + [r], args[1..], s0, s');
    }
  }

  /** A reference with two slots in one node is not moved there. */
  lemma NotTwice(m: Moving, at: nat, done: seq<Ref>, args: seq<Ref>)
    requires at < |m.j.b.nodes| && done + args == Uses(m.j.b.nodes[at]) && args != []
    ensures args[0] in done ==> (args[0], at) !in m.j.moves
  {
    if args[0] in done && (args[0], at) in m.j.moves {
      assert MayMove(m.j.b, m.top, args[0], at);
      CountConcat(done, args, args[0]);
      CountIn(done, args[0]);
      CountIn(args, args[0]);
      assert false;
    }
  }

  lemma {:induction false} DataRefsAre(m: Moving, at: nat, slots: seq<Slot>, native: Option<seq<NativeArg>>,
      args: seq<Ref>)
    requires |slots| == |args| && (native.Some? ==> |native.value| == |args|)
    requires EmitArgs(m.j, at, slots, native, args).Some?
    ensures forall r :: r in DataRefs(slots, args) ==> r in args && !IsFnRef(m.j.kinds, r)
    decreases |args|
  {
    if args != [] {
      DataRefsAre(m, at, slots[1..], if native.Some? then Some(native.value[1..]) else None, args[1..]);
    }
  }

  lemma CallPasses(m: Moving, i: nat, s: Scope)
    requires i < |m.j.b.nodes| && m.j.b.nodes[i].CCall? && EmitCall(m.j, i).Some? && ScopeAt(m, i, s)
    ensures CheckCall(EmitCall(m.j, i).value, s).Some?
    ensures AllMoved(m, i + 1, CheckCall(EmitCall(m.j, i).value, s).value)
  {
    var CCall(target, args, name) := m.j.b.nodes[i];
    var callee := m.j.tables.resolve(target, name).value;
    var slots, native := SlotsOf(m.j.tables, callee, |args|).value, m.j.tables.native(callee.name);
    DataRefsAre(m, i, slots, native, args);
    forall r | r in DataRefs(slots, args)
      ensures Free(s, r)
    {
      ReadIsFree(m, i, r, s);
    }
    assert [] + args == args;
    ArgsPass(m, i, slots, native, [], args, s, s);
  }

  // ----- whole programs -----

  lemma OneNode(m: Moving, i: nat, s: Scope, moved: set<Ref>)
    requires i < |m.j.b.nodes| && !m.j.b.nodes[i].CBlock? && !m.j.b.nodes[i].CEnd? && ScopeAt(m, i, s)
    requires forall r :: r in moved ==> MovedBefore(m, i + 1, r) || r in s.moved
    ensures ScopeAt(m, i + 1, Scope(s.vars + {NodeRef(i)}, moved))
  {
    MovedLater(m, i, i + 1, s.moved);
    Advance(m, i, i + 1, s, Scope(s.vars + {NodeRef(i)}, moved));
  }

  ghost predicate Passes(m: Moving, p: nat, r: Option<Scope>)
    requires p <= |m.j.b.nodes|
  {
    r.Some? && ScopeAt(m, p, r.value)
  }

  lemma {:induction false} CheckPasses(m: Moving, lo: nat, hi: nat, home: Option<nat>, c: Code, s: Scope)
    requires Shape(m.j, lo, hi, home, c) && ScopeAt(m, lo, s)
    ensures Passes(m, hi, Check(c, s))
    decreases c, 1
  {
    match c
    case Done =>
    case LetCall(_, _, _) => CallStep(m, lo, hi, home, c, s);
    case LetUnit(_, _) => UnitStep(m, lo, hi, home, c, s);
    case LetBlock(_, _, _, _) => BlockStep(m, lo, hi, home, c, s);
    case LetIf(_, _, _, _, _, _) => IfStep(m, lo, hi, home, c, s);
  }

  lemma {:induction false} CallStep(m: Moving, lo: nat, hi: nat, home: Option<nat>, c: Code, s: Scope)
    requires Shape(m.j, lo, hi, home, c) && ScopeAt(m, lo, s) && c.LetCall?
    ensures Passes(m, hi, Check(c, s))
    decreases c, 0
  {
    CallPasses(m, lo, s);
    OneNode(m, lo, s, CheckCall(c.call, s).value);
    CheckPasses(m, lo + 1, hi, home, c.rest, Scope(s.vars + {NodeRef(lo)}, CheckCall(c.call, s).value));
  }

  lemma {:induction false} UnitStep(m: Moving, lo: nat, hi: nat, home: Option<nat>, c: Code, s: Scope)
    requires Shape(m.j, lo, hi, home, c) && ScopeAt(m, lo, s) && c.LetUnit?
    ensures Passes(m, hi, Check(c, s))
    decreases c, 0
  {
    OneNode(m, lo, s, s.moved);
    CheckPasses(m, lo + 1, hi, home, c.rest, Scope(s.vars + {NodeRef(lo)}, s.moved));
  }

  lemma {:induction false} BlockStep(m: Moving, lo: nat, hi: nat, home: Option<nat>, c: Code, s: Scope)
    requires Shape(m.j, lo, hi, home, c) && ScopeAt(m, lo, s) && c.LetBlock?
    ensures Passes(m, hi, Check(c, s))
    decreases c, 0
  {
    PlainPasses(m, lo, c.e, home, c.body, c.value, s);
    CheckPasses(m, c.e + 1, hi, home, c.rest, Scope(s.vars + {NodeRef(c.e)}, CheckBlock(c.body, c.value, s).value));
  }

  lemma {:induction false} IfStep(m: Moving, lo: nat, hi: nat, home: Option<nat>, c: Code, s: Scope)
    requires Shape(m.j, lo, hi, home, c) && ScopeAt(m, lo, s) && c.LetIf?
    ensures Passes(m, hi, Check(c, s))
    decreases c, 0, 2
  {
    var s' := IfPasses(m, lo, hi, home, c, s);
    CheckPasses(m, c.k + 1, hi, home, c.rest, s');
  }

  /** The variables an `if` may have moved out: those of either arm. */
  function IfMoved(c: Code, s: Scope): Option<set<Ref>>
    requires c.LetIf?
  {
    var m1 := CheckBlock(c.thn, c.thnVal, s);
    var m2 := ElseMoved(c.els, s);
    if !Free(s, c.cond) || m1.None? || m2.None? then None else Some(m1.value + m2.value)
  }

  lemma CheckIf(c: Code, s: Scope)
    requires c.LetIf? && IfMoved(c, s).Some?
    ensures Check(c, s) == Check(c.rest, Scope(s.vars + {NodeRef(c.k)}, IfMoved(c, s).value))
  {
  }

  function ElseMoved(els: ElseArm, s: Scope): Option<set<Ref>> {
    match els
    case UnitArm => Some(s.moved)
    case CodeArm(code, ev) => CheckBlock(code, ev, s)
  }

  lemma {:induction false} PlainPasses(m: Moving, lo: nat, e: nat, home: Option<nat>, body: Code, v: Take,
                                       s: Scope)
    requires lo < e < |m.j.b.nodes| && IsBlock(m.j, lo, e, home, None)
    requires Shape(m.j, lo + 1, e, Some(lo), body) && ScopeAt(m, lo, s) && v == TakeAt(m.j, m.j.b.nodes[e].value, e)
    ensures CheckBlock(body, v, s).Some?
    ensures ScopeAt(m, e + 1, Scope(s.vars + {NodeRef(e)}, CheckBlock(body, v, s).value))
    decreases body, 3
  {
    BlockPasses(m, lo, e, home, None, body, v, s);
    BlockEnds(m, lo, e);
    OneBlock(m, lo, e, s, CheckBlock(body, v, s).value);
  }

  lemma OneBlock(m: Moving, lo: nat, e: nat, s: Scope, moved: set<Ref>)
    requires lo < e < |m.j.b.nodes| && Closes(m.j.b.nodes, lo, e) && ScopeAt(m, lo, s)
    requires AllMoved(m, e + 1, moved)
    ensures ScopeAt(m, e + 1, Scope(s.vars + {NodeRef(e)}, moved))
  {
    hide VisibleAt, AllMoved, Closes;
    assert StackAt(m.j.b.nodes, e + 1) == StackAt(m.j.b.nodes, lo) by { BlockInterior(m.j.b.nodes, lo, e); }
    assert forall i :: lo <= i < e ==> !VisibleAt(m, e + 1, NodeRef(i)) by { BlockHidden(m, lo, e, e + 1); }
    Advance(m, lo, e + 1, s, Scope(s.vars + {NodeRef(e)}, moved));
  }

  lemma BlockEnds(m: Moving, block: nat, end: nat)
    requires block < end < |m.j.b.nodes| && m.j.b.nodes[block].CBlock? && m.j.blocks.partner[block] == Some(end)
    ensures Closes(m.j.b.nodes, block, end)
    ensures StackAt(m.j.b.nodes, end + 1) == StackAt(m.j.b.nodes, block)
  {
    BlockInterior(m.j.b.nodes, block, end);
  }

  lemma {:induction false} BlockPasses(m: Moving, block: nat, end: nat, home: Option<nat>,
                                       arm: Option<(nat, ArmSide)>, body: Code, v: Take, s: Scope)
    requires block < end < |m.j.b.nodes| && IsBlock(m.j, block, end, home, arm)
    requires Shape(m.j, block + 1, end, Some(block), body) && ScopeAt(m, block, s)
    requires v == TakeAt(m.j, m.j.b.nodes[end].value, end)
    ensures CheckBlock(body, v, s).Some?
    ensures AllMoved(m, end + 1, CheckBlock(body, v, s).value)
    decreases body, 2
  {
    EnterBlock(m, block, s);
    CheckPasses(m, block + 1, end, Some(block), body, s);
    assert Some(m.table[end]) == LineFor(m.j, end);
    ReadIsFree(m, end, v.r, Check(body, s).value);
  }

  /** Where an `if` stands: a then arm `lo` to `t`, perhaps an else arm behind it, and the CIf `k`. */
  ghost predicate IfSite(m: Moving, lo: nat, t: nat, k: nat, two: bool) {
    && lo < t < k < |m.j.b.nodes| && m.j.b.nodes[k].CIf?
    && Closes(m.j.b.nodes, lo, t) && IsArm(m.j.b.nodes, t)
    && (if two then t + 1 < k - 1 && Closes(m.j.b.nodes, t + 1, k - 1) && IsArm(m.j.b.nodes, k - 1) else k == t + 1)
  }

  lemma SiteOf(m: Moving, lo: nat, t: nat, k: nat, home: Option<nat>, two: bool)
    requires lo < t < k < |m.j.b.nodes| && IsBlock(m.j, lo, t, home, Some((k, Then)))
    requires m.j.b.nodes[k].CIf? && m.j.b.nodes[k].then_ == NodeRef(t)
    requires two ==> t + 1 < k - 1 && IsBlock(m.j, t + 1, k - 1, home, Some((k, Else))) &&
                     m.j.b.nodes[k].else_ == NodeRef(k - 1)
    requires !two ==> k == t + 1
    ensures IfSite(m, lo, t, k, two)
  {
    assert NodeRef(t) in [m.j.b.nodes[k].then_, m.j.b.nodes[k].else_];
    BlockEnds(m, lo, t);
    if two {
      assert NodeRef(k - 1) in [m.j.b.nodes[k].then_, m.j.b.nodes[k].else_];
      BlockEnds(m, t + 1, k - 1);
    }
  }

  lemma SiteStacks(m: Moving, lo: nat, t: nat, k: nat, two: bool)
    requires IfSite(m, lo, t, k, two)
    ensures StackAt(m.j.b.nodes, t + 1) == StackAt(m.j.b.nodes, lo)
    ensures StackAt(m.j.b.nodes, k) == StackAt(m.j.b.nodes, lo)
    ensures StackAt(m.j.b.nodes, k + 1) == StackAt(m.j.b.nodes, lo)
  {
    BlockInterior(m.j.b.nodes, lo, t);
    if two {
      BlockInterior(m.j.b.nodes, t + 1, k - 1);
    }
  }

  lemma ArmHidden(m: Moving, block: nat, end: nat, p: nat)
    requires Closes(m.j.b.nodes, block, end) && IsArm(m.j.b.nodes, end) && block < end < p <= |m.j.b.nodes|
    requires StackAt(m.j.b.nodes, p) == StackAt(m.j.b.nodes, block)
    ensures forall i :: block <= i <= end ==> !VisibleAt(m, p, NodeRef(i))
  {
    BlockHidden(m, block, end, p);
    assert !VisibleAt(m, p, NodeRef(end));
  }

  /** Nothing between the then arm's CBlock and the CIf is visible behind the arms. */
  lemma IfHidden(m: Moving, lo: nat, t: nat, k: nat, two: bool, p: nat)
    requires IfSite(m, lo, t, k, two) && (p == k || p == k + 1)
    ensures forall i :: lo <= i < k ==> !VisibleAt(m, p, NodeRef(i))
  {
    hide VisibleAt;
    SiteStacks(m, lo, t, k, two);
    ArmHidden(m, lo, t, p);
    if two {
      ArmHidden(m, t + 1, k - 1, p);
    }
  }

  /** The condition is read where the then arm opens, before the CIf that names it. */
  lemma CondIsFree(m: Moving, lo: nat, t: nat, k: nat, two: bool, s: Scope)
    requires IfSite(m, lo, t, k, two) && ScopeAt(m, lo, s) && !IsFnRef(m.j.kinds, m.j.b.nodes[k].cond)
    ensures Free(s, m.j.b.nodes[k].cond)
    ensures m.j.b.nodes[k].cond.NodeRef? ==> m.j.b.nodes[k].cond.i < lo
  {
    var cond := m.j.b.nodes[k].cond;
    assert cond in Uses(m.j.b.nodes[k]);
    Unmoved(m, lo, k, cond, s);
    SiteStacks(m, lo, t, k, two);
    IfHidden(m, lo, t, k, two, k);
    assert VisibleAt(m, k, cond);
    assert VisibleAt(m, lo, cond);
  }

  lemma ScopeAtElse(m: Moving, lo: nat, t: nat, k: nat, s: Scope)
    requires IfSite(m, lo, t, k, true) && ScopeAt(m, lo, s)
    ensures ScopeAt(m, t + 1, s)
  {
    SiteStacks(m, lo, t, k, true);
    ArmHidden(m, lo, t, t + 1);
    MovedLater(m, lo, t + 1, s.moved);
    Advance(m, lo, t + 1, s, s);
  }

  lemma {:induction false} ElsePasses(m: Moving, lo: nat, hi: nat, home: Option<nat>, c: Code, s: Scope)
    requires Shape(m.j, lo, hi, home, c) && c.LetIf? && ScopeAt(m, lo, s)
    ensures ElseMoved(c.els, s).Some? && AllMoved(m, c.k + 1, ElseMoved(c.els, s).value)
    decreases c, 0, 0
  {
    var t, k := m.j.blocks.partner[lo].value, c.k;
    if c.els.CodeArm? {
      assert ScopeAt(m, t + 1, s) by {
        SiteOf(m, lo, t, k, home, true);
        ScopeAtElse(m, lo, t, k, s);
      }
      CodeArmPasses(m, t + 1, k, home, c.els, s);
    } else {
      MovedLater(m, lo, k + 1, s.moved);
    }
  }

  lemma {:induction false} CodeArmPasses(m: Moving, block: nat, k: nat, home: Option<nat>, els: ElseArm, s: Scope)
    requires block < k - 1 && k < |m.j.b.nodes| && IsBlock(m.j, block, k - 1, home, Some((k, Else)))
    requires els.CodeArm? && Shape(m.j, block + 1, k - 1, Some(block), els.code) && ScopeAt(m, block, s)
    requires els.value == TakeAt(m.j, m.j.b.nodes[k - 1].value, k - 1)
    ensures ElseMoved(els, s).Some? && AllMoved(m, k + 1, ElseMoved(els, s).value)
    decreases els, 3
  {
    BlockPasses(m, block, k - 1, home, Some((k, Else)), els.code, els.value, s);
    MovedLater(m, k, k + 1, ElseMoved(els, s).value);
  }

  lemma {:induction false} ThenPasses(m: Moving, lo: nat, hi: nat, home: Option<nat>, c: Code, s: Scope)
    requires Shape(m.j, lo, hi, home, c) && c.LetIf? && ScopeAt(m, lo, s)
    ensures CheckBlock(c.thn, c.thnVal, s).Some? && AllMoved(m, c.k + 1, CheckBlock(c.thn, c.thnVal, s).value)
    decreases c, 0, 0
  {
    var t := m.j.blocks.partner[lo].value;
    BlockPasses(m, lo, t, home, Some((c.k, Then)), c.thn, c.thnVal, s);
    MovedLater(m, t + 1, c.k + 1, CheckBlock(c.thn, c.thnVal, s).value);
  }

  lemma CondPasses(m: Moving, lo: nat, hi: nat, home: Option<nat>, c: Code, s: Scope)
    requires Shape(m.j, lo, hi, home, c) && c.LetIf? && ScopeAt(m, lo, s)
    ensures Free(s, c.cond) && (c.cond.NodeRef? ==> c.cond.i < lo)
  {
    var t := m.j.blocks.partner[lo].value;
    SiteOf(m, lo, t, c.k, home, c.els.CodeArm?);
    NotFn(m, lo, t, c.k, home);
    CondIsFree(m, lo, t, c.k, c.els.CodeArm?, s);
  }

  lemma NotFn(m: Moving, lo: nat, t: nat, k: nat, home: Option<nat>)
    requires lo < t < k < |m.j.b.nodes| && IsBlock(m.j, lo, t, home, Some((k, Then))) && m.j.b.nodes[k].CIf?
    ensures !IsFnRef(m.j.kinds, m.j.b.nodes[k].cond)
  {
    assert Some(m.table[lo]) == LineFor(m.j, lo);
  }

  lemma IfAdvances(m: Moving, lo: nat, hi: nat, home: Option<nat>, c: Code, s: Scope, moved: set<Ref>)
    requires Shape(m.j, lo, hi, home, c) && c.LetIf? && ScopeAt(m, lo, s) && AllMoved(m, c.k + 1, moved)
    ensures ScopeAt(m, c.k + 1, Scope(s.vars + {NodeRef(c.k)}, moved))
  {
    var t, k, two := m.j.blocks.partner[lo].value, c.k, c.els.CodeArm?;
    SiteOf(m, lo, t, k, home, two);
    SiteAdvances(m, lo, t, k, two, s, moved);
  }

  lemma SiteAdvances(m: Moving, lo: nat, t: nat, k: nat, two: bool, s: Scope, moved: set<Ref>)
    requires IfSite(m, lo, t, k, two) && ScopeAt(m, lo, s) && AllMoved(m, k + 1, moved)
    ensures ScopeAt(m, k + 1, Scope(s.vars + {NodeRef(k)}, moved))
  {
    hide VisibleAt, AllMoved;
    var after := Scope(s.vars + {NodeRef(k)}, moved);
    assert StackAt(m.j.b.nodes, k + 1) == StackAt(m.j.b.nodes, lo) by { SiteStacks(m, lo, t, k, two); }
    assert forall i :: lo <= i < k + 1 && VisibleAt(m, k + 1, NodeRef(i)) ==> NodeRef(i) in after.vars by {
      IfHidden(m, lo, t, k, two, k + 1);
    }
    Advance(m, lo, k + 1, s, after);
  }

  lemma {:induction false} IfPasses(m: Moving, lo: nat, hi: nat, home: Option<nat>, c: Code, s: Scope)
      returns (s': Scope)
    requires Shape(m.j, lo, hi, home, c) && c.LetIf? && ScopeAt(m, lo, s)
    ensures c.k < |m.j.b.nodes| && ScopeAt(m, c.k + 1, s') && Check(c, s) == Check(c.rest, s')
    decreases c, 0, 1
  {
    CondPasses(m, lo, hi, home, c, s);
    ThenPasses(m, lo, hi, home, c, s);
    ElsePasses(m, lo, hi, home, c, s);
    IfAdvances(m, lo, hi, home, c, s, IfMoved(c, s).value);
    s' := Scope(s.vars + {NodeRef(c.k)}, IfMoved(c, s).value);
    CheckIf(c, s);
  }

  // ----- the scope rules, on the bundle itself -----

  /** Nothing strictly inside a closed block, nor its CBlock, can be read once the block is closed. */
  lemma InsideIsUnreadable(b: Bundle, block: nat, end: nat, i: nat)
    requires Closes(b.nodes, block, end) && block <= i < end
    ensures !Readable(b, StackAt(b.nodes, block), NodeRef(i))
  {
    if i == block {
      BlockInterior(b.nodes, block, end);
    } else {
      InsideHome(b.nodes, block, end, i);
      if HomeOf(b.nodes, i).value in StackAt(b.nodes, block) {
        OpenIsEarlier(b.nodes, block, HomeOf(b.nodes, i).value);
      }
    }
  }

  /** The then arm of a CIf and the stack around it. */
  lemma ThenArmAt(b: Bundle, unit: Hash, k: nat) returns (lo: nat, t: nat)
    requires Balanced(b.nodes) && k < |b.nodes| && b.nodes[k].CIf? && ArmsInPlace(b, unit, k)
    ensures b.nodes[k].then_ == NodeRef(t) && lo < t < k && Closes(b.nodes, lo, t)
    ensures StackAt(b.nodes, t + 1) == StackAt(b.nodes, lo) && StackAt(b.nodes, k) == StackAt(b.nodes, lo)
    ensures t + 1 < k ==> Closes(b.nodes, t + 1, k - 1) && b.nodes[k].else_ == NodeRef(k - 1)
  {
    t := b.nodes[k].then_.i;
    ArmPlace(b, unit, k, t);
    assert HasOpen(b.nodes, t);
    lo := Top(StackAt(b.nodes, t)).value;
    BlockInterior(b.nodes, lo, t);
    if t + 1 < k {
      BlockInterior(b.nodes, t + 1, k - 1);
    }
  }

  /** A bound value that can be read behind the arms of a CIf was bound in front of them. */
  lemma BoundBeforeArms(b: Bundle, unit: Hash, k: nat, lo: nat, t: nat, i: nat)
    requires Closes(b.nodes, lo, t) && lo < t < k < |b.nodes| && b.nodes[k].CIf? && b.nodes[k].then_ == NodeRef(t) &&
      i < k
    requires StackAt(b.nodes, t + 1) == StackAt(b.nodes, lo)
    requires t + 1 < k ==> Closes(b.nodes, t + 1, k - 1) && b.nodes[k].else_ == NodeRef(k - 1)
    requires Readable(b, StackAt(b.nodes, lo), NodeRef(i))
    ensures i < lo
  {
    assert NodeRef(t) in [b.nodes[k].then_, b.nodes[k].else_];
    if lo <= i < t {
      InsideIsUnreadable(b, lo, t, i);
    }
    if t + 1 < k {
      assert NodeRef(k - 1) in [b.nodes[k].then_, b.nodes[k].else_];
      if t + 1 <= i < k - 1 {
        InsideIsUnreadable(b, t + 1, k - 1, i);
      }
    }
  }

  /**
   * Scope soundness at a CIf: its condition is bound, and readable, where the then arm opens, which is where the
   * emitted text reads it; and both arms stand in the CIf's own home block.
   */
  lemma ConditionInScope(b: Bundle, unit: Hash, k: nat) returns (lo: nat, t: nat)
    requires BlockRules(b, unit) && Topological(b) && k < |b.nodes| && b.nodes[k].CIf?
    ensures b.nodes[k].then_ == NodeRef(t) && lo < t < k && Closes(b.nodes, lo, t)
    ensures Readable(b, StackAt(b.nodes, lo), b.nodes[k].cond)
    ensures b.nodes[k].cond.NodeRef? ==> b.nodes[k].cond.i < lo
    ensures HomeOf(b.nodes, lo) == HomeOf(b.nodes, t) == HomeOf(b.nodes, k)
    ensures t + 1 < k ==>
      Closes(b.nodes, t + 1, k - 1) && HomeOf(b.nodes, t + 1) == HomeOf(b.nodes, k - 1) == HomeOf(b.nodes, k)
  {
    lo, t := ThenArmAt(b, unit, k);
    var cond := b.nodes[k].cond;
    assert Readable(b, StackAt(b.nodes, lo), cond) && InRange(b, cond, k) by {
      assert cond in Uses(b.nodes[k]);
    }
    if cond.NodeRef? {
      BoundBeforeArms(b, unit, k, lo, t, cond.i);
    }
    BlockHome(b, lo, t);
    if t + 1 < k {
      BlockHome(b, t + 1, k - 1);
    }
  }

  /** A block's CBlock and CEnd stand in the block that is open in front of it. */
  lemma BlockHome(b: Bundle, block: nat, end: nat)
    requires Closes(b.nodes, block, end)
    ensures block < end && HomeOf(b.nodes, block) == HomeOf(b.nodes, end) == Top(StackAt(b.nodes, block))
  {
    BlockInterior(b.nodes, block, end);
  }
}
