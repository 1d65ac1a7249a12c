/** The emitter: one pass in index order that writes each node inside the blocks the IR puts it in. */
module Emit {
  import opened CoreIr
  import opened Blocks
  import opened Fault
  import opened RustCode
  import opened LastUse

  datatype Slot = DataSlot | FnSlot

  /** How a native-convention callee takes a data argument. */
  datatype NativeArg = ByValue | ByBytes | ByAccessor

  datatype PoolKind = Constant(v: Value) | Param(slot: nat) | FnPath(path: string)

  /** The constant tables the emitter consults. */
  datatype Tables = Tables(
    resolve: (Hash, seq<Byte>) -> Option<Callee>,
    slots: string -> Option<seq<Slot>>,
    native: string -> Option<seq<NativeArg>>,
    pureDet: set<Hash>,
    fnHash: Hash)

  /** Everything one emission reads. */
  datatype Job = Job(tables: Tables, kinds: seq<PoolKind>, b: Bundle, blocks: BlockTables, moves: MoveSet)

  // ----- call nodes -----

  predicate IsFnRef(kinds: seq<PoolKind>, r: Ref) {
    r.PoolRef? && r.i < |kinds| && kinds[r.i].FnPath?
  }

  /** A call is pure and deterministic when its callee is, and so is every function it is handed. */
  predicate PureDet(t: Tables, pool: seq<PoolEntry>, target: Hash, args: seq<Ref>) {
    && target in t.pureDet
    && forall a :: a in args && a.PoolRef? && a.i < |pool| && pool[a.i].defHash == t.fnHash ==>
         |pool[a.i].payload| == 32 && pool[a.i].payload in t.pureDet
  }

  /** A function argument that is not declared pure and deterministic. */
  predicate HandsImpure(t: Tables, pool: seq<PoolEntry>, a: Ref) {
    && a.PoolRef? && a.i < |pool| && pool[a.i].defHash == t.fnHash
    && (|pool[a.i].payload| != 32 || pool[a.i].payload !in t.pureDet)
  }

  /** The call may act on the world: its callee, or a function it is handed, is not declared pure and deterministic. */
  predicate MayAct(t: Tables, pool: seq<PoolEntry>, n: Node)
    requires n.CCall?
  {
    n.target !in t.pureDet || exists p :: 0 <= p < |n.args| && HandsImpure(t, pool, n.args[p])
  }

  lemma PureDetIs(t: Tables, pool: seq<PoolEntry>, n: Node)
    requires n.CCall?
    ensures PureDet(t, pool, n.target, n.args) <==> !MayAct(t, pool, n)
  {
    if PureDet(t, pool, n.target, n.args) {
      assert forall p :: 0 <= p < |n.args| ==> n.args[p] in n.args;
    }
  }

  function SlotsOf(t: Tables, callee: Callee, n: nat): Option<seq<Slot>> {
    match t.slots(callee.name)
    case None => Some(seq(n, _ => DataSlot))
    case Some(s) => if |s| == n then Some(s) else None
  }

  /** The slots of the callee: as declared, or all data. */
  predicate SlotsAre(j: Job, callee: Callee, slots: seq<Slot>) {
    match j.tables.slots(callee.name)
    case Some(declared) => slots == declared
    case None => forall p :: 0 <= p < |slots| ==> slots[p] == DataSlot
  }

  lemma SlotsAreThose(j: Job, callee: Callee, slots: seq<Slot>, n: nat)
    requires SlotsAre(j, callee, slots) && |slots| == n
    ensures SlotsOf(j.tables, callee, n) == Some(slots)
  {
    if j.tables.slots(callee.name).None? {
      assert slots == seq(n, _ => DataSlot);
    }
  }

  function TakeAt(j: Job, r: Ref, at: nat): Take {
    Take(r, (r, at) in j.moves)
  }

  function EmitArg(j: Job, at: nat, slot: Slot, native: Option<NativeArg>, r: Ref): Option<ArgExpr> {
    match slot
    case FnSlot => if IsFnRef(j.kinds, r) then Some(Path(j.kinds[r.i].path)) else None
    case DataSlot =>
      if IsFnRef(j.kinds, r) then None
      else match native
        case None => Some(Own(TakeAt(j, r, at)))
        case Some(ByValue) => Some(Own(TakeAt(j, r, at)))
        case Some(ByBytes) => Some(if (r, at) in j.moves then Own(Take(r, true)) else Borrow(r))
        case Some(ByAccessor) => Some(Borrow(r))
  }

  function EmitArgs(j: Job, at: nat, slots: seq<Slot>, native: Option<seq<NativeArg>>, args: seq<Ref>):
      Option<seq<ArgExpr>>
    requires |slots| == |args| && (native.Some? ==> |native.value| == |args|)
    decreases |args|
  {
    if args == [] then Some([]) else
    var first := EmitArg(j, at, slots[0], if native.Some? then Some(native.value[0]) else None, args[0]);
    var rest := EmitArgs(j, at, slots[1..], if native.Some? then Some(native.value[1..]) else None, args[1..]);
    if first.None? || rest.None? then None else Some([first.value] + rest.value)
  }

  function DataRefs(slots: seq<Slot>, args: seq<Ref>): seq<Ref>
    requires |slots| == |args|
    decreases |args|
  {
    if args == [] then [] else
    (if slots[0] == DataSlot then [args[0]] else []) + DataRefs(slots[1..], args[1..])
  }

  function EmitCall(j: Job, i: nat): Option<CallExpr>
    requires i < |j.b.nodes| && j.b.nodes[i].CCall?
  {
    var CCall(target, args, name) := j.b.nodes[i];
    match j.tables.resolve(target, name)
    case None => None
    case Some(callee) =>
      var slots := SlotsOf(j.tables, callee, |args|);
      var native := j.tables.native(callee.name);
      if slots.None? || (native.Some? && |native.value| != |args|) then None else
      var exprs := EmitArgs(j, i, slots.value, native, args);
      if exprs.None? then None else
      Some(CallExpr(callee, !PureDet(j.tables, j.b.pool, target, args), DataRefs(slots.value, args), exprs.value))
  }

  function NativeAt(j: Job, callee: Callee, p: nat): Option<NativeArg> {
    match j.tables.native(callee.name)
    case Some(how) => if p < |how| then Some(how[p]) else None
    case None => None
  }

  /** The declared lengths are the call's, and exactly the function slots are handed functions. */
  predicate Fits(j: Job, callee: Callee, args: seq<Ref>) {
    var slots, native := j.tables.slots(callee.name), j.tables.native(callee.name);
    && (slots.Some? ==> |slots.value| == |args|)
    && (native.Some? ==> |native.value| == |args|)
    && forall p :: 0 <= p < |args| ==> (IsFnRef(j.kinds, args[p]) <==> slots.Some? && slots.value[p] == FnSlot)
  }

  /** How argument `r` of node `at` is written: by path, borrowed for a native accessor, else taken, at its last use. */
  predicate WrittenAs(j: Job, at: nat, native: Option<NativeArg>, r: Ref, x: ArgExpr) {
    if IsFnRef(j.kinds, r) then x == Path(j.kinds[r.i].path)
    else if native == Some(ByAccessor) || (native == Some(ByBytes) && (r, at) !in j.moves) then x == Borrow(r)
    else x == Own(Take(r, (r, at) in j.moves))
  }

  lemma {:induction false} EmitArgsExact(j: Job, at: nat, slots: seq<Slot>, native: Option<seq<NativeArg>>,
                                         args: seq<Ref>)
    requires |slots| == |args| && (native.Some? ==> |native.value| == |args|)
    ensures var xs := EmitArgs(j, at, slots, native, args);
      && (xs.Some? <==> forall p :: 0 <= p < |args| ==> (IsFnRef(j.kinds, args[p]) <==> slots[p] == FnSlot))
      && (xs.Some? ==> |xs.value| == |args| && forall p :: 0 <= p < |args| ==>
            WrittenAs(j, at, if native.Some? then Some(native.value[p]) else None, args[p], xs.value[p]))
    decreases |args|
  {
    if args != [] {
      var rest := if native.Some? then Some(native.value[1..]) else None;
      EmitArgsExact(j, at, slots[1..], rest, args[1..]);
      var xs := EmitArgs(j, at, slots, native, args);
      assert forall p :: 0 < p < |args| ==> args[p] == args[1..][p - 1] && slots[p] == slots[1..][p - 1];
      if xs.Some? {
        assert xs.value[1..] == EmitArgs(j, at, slots[1..], rest, args[1..]).value;
      }
    }
  }

  /** When a call is refused, and what is written for it when it is not. */
  lemma EmitCallExact(j: Job, i: nat)
    requires i < |j.b.nodes| && j.b.nodes[i].CCall?
    ensures var n := j.b.nodes[i]; var callee := j.tables.resolve(n.target, n.name);
      && (EmitCall(j, i).Some? <==> callee.Some? && Fits(j, callee.value, n.args))
      && (EmitCall(j, i).Some? ==>
          var call := EmitCall(j, i).value;
          && call.callee == callee.value && (call.effectful <==> MayAct(j.tables, j.b.pool, n))
          && |call.args| == |n.args|
          && forall p :: 0 <= p < |n.args| ==>
               WrittenAs(j, i, NativeAt(j, callee.value, p), n.args[p], call.args[p]))
  {
    var n := j.b.nodes[i];
    var callee := j.tables.resolve(n.target, n.name);
    PureDetIs(j.tables, j.b.pool, n);
    if callee.Some? {
      var slots, native := SlotsOf(j.tables, callee.value, |n.args|), j.tables.native(callee.value.name);
      if slots.Some? && (native.Some? ==> |native.value| == |n.args|) {
        EmitArgsExact(j, i, slots.value, native, n.args);
      }
    }
  }

  // ----- one node, one line -----

  ghost predicate Ready(j: Job) {
    Describes(j.blocks, j.b.nodes) && Balanced(j.b.nodes)
  }

  predicate Sized(j: Job) {
    |j.blocks.home| == |j.blocks.partner| == |j.blocks.arm| == |j.b.nodes|
  }

  predicate IsCIf(j: Job, k: nat) {
    k < |j.b.nodes| && j.b.nodes[k].CIf?
  }

  /** The arm a CBlock opens; `None` when the tables do not describe a matched block. */
  function Opens(j: Job, i: nat): Option<(nat, Option<(nat, ArmSide)>)>
    requires Sized(j) && i < |j.b.nodes|
  {
    if j.blocks.partner[i].None? || j.blocks.partner[i].value >= |j.b.nodes| then None else
    var end := j.blocks.partner[i].value;
    if j.blocks.arm[end].Some? && !IsCIf(j, j.blocks.arm[end].value.0) then None else Some((end, j.blocks.arm[end]))
  }

  /** The lines (none or one) written for node `i`; `None` where the emitter refuses or gives up. */
  function LineFor(j: Job, i: nat): Option<seq<Line>>
    requires Sized(j) && i < |j.b.nodes|
  {
    match j.b.nodes[i]
    case CBlock =>
      (match Opens(j, i)
       case None => None
       case Some((_, Some((k, Then)))) =>
         var cond := j.b.nodes[k].cond;
         if IsFnRef(j.kinds, cond) then None else Some([LineIf(k, cond)])
       case Some((_, Some((_, Else)))) => Some([])
       case Some((end, None)) => Some([LineBlock(end)]))
    case CEnd(value) =>
      if IsFnRef(j.kinds, value) then None else
      var v := TakeAt(j, value, i);
      (match j.blocks.arm[i]
       case Some((k, Then)) =>
         Some([if IsCIf(j, k) && j.b.nodes[k].else_.NodeRef? then LineElse(v) else LineElseUnit(v)])
       case _ => Some([LineClose(v)]))
    case CIf(_, _, _) => Some([])
    case CCall(_, _, _) =>
      var call := EmitCall(j, i);
      if call.None? then None else Some([LineCall(i, call.value)])
    case CDeterminate => Some([LineUnit(i)])
  }

  /** A function used as data, or a call that does not resolve. */
  predicate Gated(j: Job, i: nat)
    requires Sized(j) && i < |j.b.nodes|
  {
    match j.b.nodes[i]
    case CBlock =>
      && Opens(j, i).Some? && Opens(j, i).value.1.Some? && Opens(j, i).value.1.value.1 == Then
      && IsFnRef(j.kinds, j.b.nodes[Opens(j, i).value.1.value.0].cond)
    case CEnd(value) => IsFnRef(j.kinds, value)
    case CIf(_, _, _) => false
    case CCall(_, _, _) => EmitCall(j, i).None?
    case CDeterminate => false
  }

  /** On a verified bundle the emitter refuses a node only at its type gates: its lookups never fail. */
  lemma OnlyGatesRefuse(j: Job, i: nat)
    requires Ready(j) && i < |j.b.nodes|
    ensures LineFor(j, i).None? <==> Gated(j, i)
  {
    if j.b.nodes[i].CBlock? {
      assert i in StackAt(j.b.nodes, i + 1);
      var end := EveryBlockCloses(j.b.nodes, i, i + 1);
      assert Closes(j.b.nodes, i, end);
    }
  }

  // ----- the pass -----

  /** `table[lo] + ... + table[hi - 1] + tail`. */
  function Joined(table: seq<seq<Line>>, lo: nat, hi: nat, tail: seq<Line>): seq<Line>
    requires lo <= hi <= |table|
    decreases hi - lo
  {
    if lo == hi then tail else table[lo] + Joined(table, lo + 1, hi, tail)
  }

  lemma {:induction false} JoinedSplit(table: seq<seq<Line>>, lo: nat, mid: nat, hi: nat, tail: seq<Line>)
    requires lo <= mid <= hi <= |table|
    ensures Joined(table, lo, hi, tail) == Joined(table, lo, mid, Joined(table, mid, hi, tail))
    decreases mid - lo
  {
    if lo < mid {
      JoinedSplit(table, lo + 1, mid, hi, tail);
    }
  }

  lemma {:induction false} JoinedPush(table: seq<seq<Line>>, lo: nat, l: seq<Line>)
    requires lo <= |table|
    ensures Joined(table + [l], lo, |table| + 1, []) == Joined(table, lo, |table|, []) + l
    decreases |table| - lo
  {
    if lo < |table| {
      JoinedPush(table, lo + 1, l);
    } else {
      assert l + [] == l;
    }
  }

  lemma JoinedSkip(table: seq<seq<Line>>, i: nat, hi: nat, tail: seq<Line>)
    requires i < hi <= |table| && table[i] == []
    ensures Joined(table, i, hi, tail) == Joined(table, i + 1, hi, tail)
  {
  }

  /** The lines every node writes, by node. */
  ghost predicate Tabled(j: Job, table: seq<seq<Line>>)
    requires Sized(j)
  {
    |table| == |j.b.nodes| && forall i {:trigger LineFor(j, i)} :: 0 <= i < |table| ==> LineFor(j, i) == Some(table[i])
  }

  /** The emission pass. `depth` is the indentation; it never underflows. */
  method EmitBlocks(j: Job) returns (out: Option<seq<Line>>, ghost table: seq<seq<Line>>)
    requires Ready(j)
    ensures out.None? <==> exists i :: 0 <= i < |j.b.nodes| && Gated(j, i)
    ensures out.Some? ==> Tabled(j, table) && out.value == Joined(table, 0, |table|, [])
  {
    hide Gated;
    var lines: seq<Line> := [];
    table := [];
    var depth: nat := 1;
    var i := 0;
    while i < |j.b.nodes|
      invariant i == |table| <= |j.b.nodes|
      invariant forall q {:trigger LineFor(j, q)} :: 0 <= q < i ==> LineFor(j, q) == Some(table[q])
      invariant forall q :: 0 <= q < i ==> !Gated(j, q)
      invariant lines == Joined(table, 0, i, [])
      invariant depth == 1 + |StackAt(j.b.nodes, i)|
    {
      OnlyGatesRefuse(j, i);
      var l := LineFor(j, i);
      if l.None? {
        return None, table;
      }
      if j.b.nodes[i].CBlock? {
        depth := depth + 1;
      } else if j.b.nodes[i].CEnd? {
        assert HasOpen(j.b.nodes, i);
        depth := depth - 1;
      }
      JoinedPush(table, 0, l.value);
      table := table + [l.value];
      lines := lines + l.value;
      i := i + 1;
    }
    out := Some(lines);
  }

  // ----- the nested program behind the lines -----

  /** `c` is the program the nodes `lo` to `hi` of block `home` stand for. */
  ghost predicate Shape(j: Job, lo: nat, hi: nat, home: Option<nat>, c: Code)
    requires Sized(j)
    decreases c
  {
    var nodes, bt := j.b.nodes, j.blocks;
    lo <= hi <= |nodes| &&
    match c
    case Done => lo == hi
    case LetCall(i, call, rest) =>
      && lo == i < hi && nodes[lo].CCall? && bt.home[lo] == home && EmitCall(j, lo) == Some(call)
      && Shape(j, lo + 1, hi, home, rest)
    case LetUnit(i, rest) =>
      && lo == i < hi && nodes[lo].CDeterminate? && bt.home[lo] == home
      && Shape(j, lo + 1, hi, home, rest)
    case LetBlock(e, body, v, rest) =>
      && lo < e < hi && IsBlock(j, lo, e, home, None) && v == TakeAt(j, nodes[e].value, e)
      && Shape(j, lo + 1, e, Some(lo), body)
      && Shape(j, e + 1, hi, home, rest)
    case LetIf(k, cond, thn, tv, els, rest) =>
      && lo < k < hi && bt.partner[lo].Some?
      && var t := bt.partner[lo].value;
      && lo < t < k && IsBlock(j, lo, t, home, Some((k, Then)))
      && nodes[k].CIf? && nodes[k].cond == cond && nodes[k].then_ == NodeRef(t) && bt.home[k] == home
      && tv == TakeAt(j, nodes[t].value, t)
      && Shape(j, lo + 1, t, Some(lo), thn)
      && (match els
          case UnitArm => k == t + 1 && nodes[k].else_.PoolRef?
          case CodeArm(code, ev) =>
            && t + 1 < k - 1 && IsBlock(j, t + 1, k - 1, home, Some((k, Else)))
            && nodes[k].else_ == NodeRef(k - 1) && ev == TakeAt(j, nodes[k - 1].value, k - 1)
            && Shape(j, t + 2, k - 1, Some(t + 1), code))
      && Shape(j, k + 1, hi, home, rest)
  }

  /** A matched block in `home`, an arm or (with `None`) plain grouping. */
  ghost predicate IsBlock(j: Job, block: nat, end: nat, home: Option<nat>, arm: Option<(nat, ArmSide)>)
    requires Sized(j) && block < end < |j.b.nodes|
  {
    && j.b.nodes[block].CBlock? && j.b.nodes[end].CEnd?
    && j.blocks.partner[block] == Some(end) && j.blocks.partner[end] == Some(block)
    && j.blocks.home[block] == home && j.blocks.home[end] == home
    && j.blocks.arm[end] == arm
  }

  /** The else side of an `if` whose then arm ends at `t`. */
  ghost predicate ElsePart(j: Job, t: nat, k: nat, home: Option<nat>, els: ElseArm)
    requires Sized(j)
  {
    && t < k < |j.b.nodes| && j.b.nodes[k].CIf? && j.b.nodes[k].then_ == NodeRef(t) && j.blocks.home[k] == home
    && ElseShape(j, t, k, els)
    && (els.CodeArm? ==> IsBlock(j, t + 1, k - 1, home, Some((k, Else))))
  }

  /** What an `if` consists of. */
  lemma IfParts(j: Job, lo: nat, hi: nat, home: Option<nat>, c: Code)
    requires Sized(j) && Shape(j, lo, hi, home, c) && c.LetIf?
    ensures j.blocks.partner[lo].Some? && lo < j.blocks.partner[lo].value < c.k < hi <= |j.b.nodes|
    ensures var t, k := j.blocks.partner[lo].value, c.k;
      && IsBlock(j, lo, t, home, Some((k, Then))) && Shape(j, lo + 1, t, Some(lo), c.thn)
      && ElsePart(j, t, k, home, c.els) && Shape(j, k + 1, hi, home, c.rest)
      && c.cond == j.b.nodes[k].cond && c.thnVal == TakeAt(j, j.b.nodes[t].value, t)
  {
  }

  /** What a block that is not an arm consists of. */
  lemma BlockParts(j: Job, lo: nat, hi: nat, home: Option<nat>, c: Code)
    requires Sized(j) && Shape(j, lo, hi, home, c) && c.LetBlock?
    ensures lo < c.e < hi <= |j.b.nodes| && IsBlock(j, lo, c.e, home, None)
    ensures Shape(j, lo + 1, c.e, Some(lo), c.body) && Shape(j, c.e + 1, hi, home, c.rest)
    ensures c.value.r == j.b.nodes[c.e].value
  {
  }

  lemma PlainLines(j: Job, table: seq<seq<Line>>, block: nat, end: nat, home: Option<nat>)
    requires Sized(j) && Tabled(j, table) && block < end < |table| && IsBlock(j, block, end, home, None)
    ensures table[block] == [LineBlock(end)] && table[end] == [LineClose(TakeAt(j, j.b.nodes[end].value, end))]
  {
    assert Some(table[block]) == LineFor(j, block) && Some(table[end]) == LineFor(j, end);
  }

  lemma ThenLines(j: Job, table: seq<seq<Line>>, block: nat, end: nat, home: Option<nat>, k: nat)
    requires Sized(j) && Tabled(j, table) && block < end < |table| && IsCIf(j, k)
    requires IsBlock(j, block, end, home, Some((k, Then)))
    ensures table[block] == [LineIf(k, j.b.nodes[k].cond)] && table[k] == []
    ensures var v := TakeAt(j, j.b.nodes[end].value, end);
      table[end] == [if j.b.nodes[k].else_.NodeRef? then LineElse(v) else LineElseUnit(v)]
  {
    assert Some(table[block]) == LineFor(j, block) && Some(table[end]) == LineFor(j, end) &&
      Some(table[k]) == LineFor(j, k);
  }

  lemma ElseLines(j: Job, table: seq<seq<Line>>, block: nat, end: nat, home: Option<nat>, k: nat)
    requires Sized(j) && Tabled(j, table) && block < end < |table| && IsCIf(j, k)
    requires IsBlock(j, block, end, home, Some((k, Else)))
    ensures table[block] == [] && table[end] == [LineClose(TakeAt(j, j.b.nodes[end].value, end))]
  {
    assert Some(table[block]) == LineFor(j, block) && Some(table[end]) == LineFor(j, end);
  }

  /** The lines written are the rendering of that program, so they read back as it. */
  lemma {:induction false} ShapeRenders(j: Job, table: seq<seq<Line>>, lo: nat, hi: nat, home: Option<nat>, c: Code,
                                        tail: seq<Line>)
    requires Sized(j) && Tabled(j, table) && Shape(j, lo, hi, home, c)
    ensures Joined(table, lo, hi, tail) == Render(c, tail)
    decreases c, 1
  {
    match c
    case Done =>
    case LetCall(_, _, _) => LineRenders(j, table, lo, hi, home, c, tail);
    case LetUnit(_, _) => LineRenders(j, table, lo, hi, home, c, tail);
    case LetBlock(_, _, _, _) => BlockRenders(j, table, lo, hi, home, c, tail);
    case LetIf(_, _, _, _, UnitArm, _) => OneArmRenders(j, table, lo, hi, home, c, tail);
    case LetIf(_, _, _, _, CodeArm(_, _), _) => TwoArmsRender(j, table, lo, hi, home, c, tail);
  }

  lemma {:induction false} LineRenders(j: Job, table: seq<seq<Line>>, lo: nat, hi: nat, home: Option<nat>, c: Code,
                                       tail: seq<Line>)
    requires Sized(j) && Tabled(j, table) && Shape(j, lo, hi, home, c) && (c.LetCall? || c.LetUnit?)
    ensures Joined(table, lo, hi, tail) == Render(c, tail)
    decreases c, 0
  {
    ShapeRenders(j, table, lo + 1, hi, home, c.rest, tail);
    assert Some(table[lo]) == LineFor(j, lo);
  }

  lemma {:induction false} BlockRenders(j: Job, table: seq<seq<Line>>, lo: nat, hi: nat, home: Option<nat>, c: Code,
                                        tail: seq<Line>)
    requires Sized(j) && Tabled(j, table) && Shape(j, lo, hi, home, c) && c.LetBlock?
    ensures Joined(table, lo, hi, tail) == Render(c, tail)
    decreases c, 0
  {
    PlainLines(j, table, lo, c.e, home);
    assert Joined(table, c.e, hi, tail) == [LineClose(c.value)] + Render(c.rest, tail) by {
      ShapeRenders(j, table, c.e + 1, hi, home, c.rest, tail);
    }
    BodyRenders(j, table, lo, c.e, hi, c.body, tail);
  }

  lemma {:induction false} OneArmRenders(j: Job, table: seq<seq<Line>>, lo: nat, hi: nat, home: Option<nat>, c: Code,
                                         tail: seq<Line>)
    requires Sized(j) && Tabled(j, table) && Shape(j, lo, hi, home, c) && c.LetIf? && c.els.UnitArm?
    ensures Joined(table, lo, hi, tail) == Render(c, tail)
    decreases c, 0
  {
    hide Shape, LineFor, IsBlock;
    IfParts(j, lo, hi, home, c);
    var t := j.blocks.partner[lo].value;
    ShapeRenders(j, table, c.k + 1, hi, home, c.rest, tail);
    ThenLines(j, table, lo, t, home, c.k);
    JoinedSkip(table, c.k, hi, tail);
    var after := Joined(table, t, hi, tail);
    assert after == table[t] + Render(c.rest, tail);
    BodyRenders(j, table, lo, t, hi, c.thn, tail);
    assert Joined(table, lo, hi, tail) == table[lo] + Render(c.thn, after);
  }

  lemma {:induction false} TwoArmsRender(j: Job, table: seq<seq<Line>>, lo: nat, hi: nat, home: Option<nat>, c: Code,
                                         tail: seq<Line>)
    requires Sized(j) && Tabled(j, table) && Shape(j, lo, hi, home, c) && c.LetIf? && c.els.CodeArm?
    ensures Joined(table, lo, hi, tail) == Render(c, tail)
    decreases c, 0
  {
    hide Shape, LineFor;
    IfParts(j, lo, hi, home, c);
    var t, k := j.blocks.partner[lo].value, c.k;
    ShapeRenders(j, table, k + 1, hi, home, c.rest, tail);
    ElseRenders(j, table, t + 1, k, hi, home, c.els.code, Render(c.rest, tail), tail);
    ThenLines(j, table, lo, t, home, k);
    BodyRenders(j, table, lo, t, hi, c.thn, tail);
  }

  lemma {:induction false} ElseRenders(j: Job, table: seq<seq<Line>>, block: nat, k: nat, hi: nat, home: Option<nat>,
                                       code: Code, rest: seq<Line>, tail: seq<Line>)
    requires Sized(j) && Tabled(j, table) && block < k - 1 && k < hi <= |table| && IsCIf(j, k)
    requires IsBlock(j, block, k - 1, home, Some((k, Else))) && Shape(j, block + 1, k - 1, Some(block), code)
    requires Joined(table, k + 1, hi, tail) == rest
    ensures Joined(table, block, hi, tail) ==
            Render(code, [LineClose(TakeAt(j, j.b.nodes[k - 1].value, k - 1))] + rest)
    decreases code, 3
  {
    ElseLines(j, table, block, k - 1, home, k);
    var close := [LineClose(TakeAt(j, j.b.nodes[k - 1].value, k - 1))];
    assert Joined(table, k - 1, hi, tail) == close + rest by {
      assert table[k] == [] by { assert Some(table[k]) == LineFor(j, k); }
      JoinedSkip(table, k, hi, tail);
    }
    JoinedSkip(table, block, hi, tail);
    BodyRenders(j, table, block, k - 1, hi, code, tail);
  }

  lemma {:induction false} BodyRenders(j: Job, table: seq<seq<Line>>, block: nat, end: nat, hi: nat, body: Code,
                                       tail: seq<Line>)
    requires Sized(j) && Tabled(j, table) && block < end <= hi <= |j.b.nodes|
    requires Shape(j, block + 1, end, Some(block), body)
    ensures Joined(table, block + 1, hi, tail) == Render(body, Joined(table, end, hi, tail))
    decreases body, 2
  {
    JoinedSplit(table, block + 1, end, hi, tail);
    ShapeRenders(j, table, block + 1, end, Some(block), body, Joined(table, end, hi, tail));
  }

  // ----- every accepted bundle has such a program -----

  /** A verified bundle with the lines each of its nodes is written as; `top` are its top-level nodes. */
  datatype Emission = Emission(j: Job, unit: Hash, table: seq<seq<Line>>, top: set<nat>)

  type Verified = m: Emission | Ready(m.j) && ArmsPlaced(m.j.b, m.unit) && Tabled(m.j, m.table)
    witness Emission(Job(Tables((_, _) => None, _ => None, _ => None, {}, []), [], Bundle([], [], PoolRef(0)),
                         BlockTables([], [], []), {}), [], [], {})

  ghost predicate Within(nodes: seq<Node>, lo: nat, i: nat)
    requires lo <= |nodes| && i <= |nodes|
  {
    StackAt(nodes, lo) <= StackAt(nodes, i)
  }

  /** A run of whole statements of one block: it leaves no block early, does not start behind an arm, and ends at
      the end of the list or of the block. */
  ghost predicate Segment(j: Job, lo: nat, hi: nat)
    requires Sized(j)
  {
    && lo <= hi <= |j.b.nodes|
    && StackAt(j.b.nodes, lo) == StackAt(j.b.nodes, hi)
    && (forall i {:trigger Within(j.b.nodes, lo, i)} :: lo <= i <= hi ==> Within(j.b.nodes, lo, i))
    && (lo == 0 || j.blocks.arm[lo - 1].None?)
    && (hi == |j.b.nodes| || j.b.nodes[hi].CEnd?)
  }

  lemma InnerSegment(m: Verified, block: nat, end: nat)
    requires Closes(m.j.b.nodes, block, end)
    ensures Segment(m.j, block + 1, end) && Top(StackAt(m.j.b.nodes, block + 1)) == Some(block)
  {
    BlockInterior(m.j.b.nodes, block, end);
    assert StackAt(m.j.b.nodes, block + 1) == StackAt(m.j.b.nodes, block) + [block];
  }

  lemma RestSegment(m: Verified, lo: nat, mid: nat, hi: nat)
    requires lo < mid <= hi && Segment(m.j, lo, hi)
    requires StackAt(m.j.b.nodes, mid) == StackAt(m.j.b.nodes, lo) && m.j.blocks.arm[mid - 1].None?
    ensures Segment(m.j, mid, hi)
  {
    forall i | mid <= i <= hi
      ensures Within(m.j.b.nodes, mid, i)
    {
      assert Within(m.j.b.nodes, lo, i);
    }
  }

  /** A block opened inside a segment closes inside it. */
  lemma ClosesInside(m: Verified, lo: nat, block: nat, hi: nat) returns (end: nat)
    requires lo <= block < hi && Segment(m.j, lo, hi)
    requires m.j.b.nodes[block].CBlock? && StackAt(m.j.b.nodes, block) == StackAt(m.j.b.nodes, lo)
    ensures block < end < hi && Closes(m.j.b.nodes, block, end)
    ensures StackAt(m.j.b.nodes, end + 1) == StackAt(m.j.b.nodes, lo)
    ensures IsBlock(m.j, block, end, Top(StackAt(m.j.b.nodes, lo)), m.j.blocks.arm[end])
  {
    assert block in StackAt(m.j.b.nodes, block + 1);
    end := EveryBlockCloses(m.j.b.nodes, block, block + 1);
    BlockInterior(m.j.b.nodes, block, end);
    var inside, atEnd := StackAt(m.j.b.nodes, block) + [block], StackAt(m.j.b.nodes, hi);
    assert hi <= end ==> inside <= atEnd;
    assert HasOpen(m.j.b.nodes, end);
    assert m.j.blocks.partner[block] == Some(end) && m.j.blocks.partner[end] == Some(block);
    assert m.j.blocks.home[block] == HomeOf(m.j.b.nodes, block) && m.j.blocks.home[end] == HomeOf(m.j.b.nodes, end);
  }

  /** What stands at the start of a segment is never a CEnd, a CIf or an else arm. */
  lemma SegmentStart(m: Verified, lo: nat, hi: nat)
    requires Segment(m.j, lo, hi) && lo < hi
    ensures !m.j.b.nodes[lo].CEnd? && !m.j.b.nodes[lo].CIf?
    ensures m.j.blocks.home[lo] == Top(StackAt(m.j.b.nodes, lo))
  {
    var nodes := m.j.b.nodes;
    assert HasOpen(nodes, lo) || !nodes[lo].CEnd?;
    assert Within(nodes, lo, lo + 1);
    if nodes[lo].CIf? {
      ArmBehind(m, lo);
    }
    assert m.j.blocks.home[lo] == HomeOf(nodes, lo);
  }

  lemma ArmBehind(m: Verified, k: nat)
    requires IsCIf(m.j, k)
    ensures k >= 1 && m.j.blocks.arm[k - 1].Some?
  {
    assert ArmsInPlace(m.j.b, m.unit, k) && Claimed(m.j.b.nodes, m.j.blocks.arm, k);
  }

  lemma NotElseArm(m: Verified, lo: nat, end: nat)
    requires Closes(m.j.b.nodes, lo, end)
    requires lo == 0 || (lo <= |m.j.b.nodes| && m.j.blocks.arm[lo - 1].None?)
    ensures m.j.blocks.arm[end].Some? ==> m.j.blocks.arm[end].value.1 == Then
  {
    if m.j.blocks.arm[end].Some? {
      var (k, side) := m.j.blocks.arm[end].value;
      assert ArmOf(m.j.b.nodes, end, k, side);
      assert ArmsInPlace(m.j.b, m.unit, k) && Claimed(m.j.b.nodes, m.j.blocks.arm, k);
    }
  }

  /** CEnd `t` is the then arm of CIf `k`; the else arm, if there is one, fills the gap between them. */
  ghost predicate ArmsOf(j: Job, t: nat, k: nat)
    requires Sized(j)
  {
    && t < k < |j.b.nodes| && j.blocks.arm[t] == Some((k, Then))
    && j.b.nodes[k].CIf? && j.b.nodes[k].then_ == NodeRef(t)
    && (j.b.nodes[k].else_.PoolRef? ==> k == t + 1)
    && (j.b.nodes[k].else_.NodeRef? ==> ElseBefore(j, t, k))
  }

  ghost predicate ElseBefore(j: Job, t: nat, k: nat)
    requires Sized(j) && t < k < |j.b.nodes| && j.b.nodes[k].CIf?
  {
    && t + 1 < k - 1 && j.b.nodes[k].else_ == NodeRef(k - 1)
    && Closes(j.b.nodes, t + 1, k - 1) && j.blocks.arm[k - 1] == Some((k, Else))
  }

  /** An `if` of the segment from `lo` to `hi`: its arms, and its CIf in the segment's own block. */
  ghost predicate IfAt(j: Job, lo: nat, t: nat, k: nat, hi: nat)
    requires Sized(j)
  {
    && ArmsOf(j, t, k) && lo < t && k < hi
    && StackAt(j.b.nodes, k) == StackAt(j.b.nodes, lo)
    && j.blocks.home[k] == Top(StackAt(j.b.nodes, lo))
    && (j.b.nodes[k].else_.NodeRef? ==>
        IsBlock(j, t + 1, k - 1, Top(StackAt(j.b.nodes, lo)), Some((k, Else))))
  }

  /** Where the rest of an `if` stands once its then arm is found. */
  lemma ThenArm(m: Verified, lo: nat, t: nat, hi: nat) returns (k: nat)
    requires Segment(m.j, lo, hi) && lo < t < hi && Closes(m.j.b.nodes, lo, t)
    requires StackAt(m.j.b.nodes, t + 1) == StackAt(m.j.b.nodes, lo)
    requires m.j.blocks.arm[t].Some? && m.j.blocks.arm[t].value.1 == Then
    ensures IfAt(m.j, lo, t, k, hi)
  {
    k := ArmNodes(m, t);
    if m.j.b.nodes[k].else_.NodeRef? {
      ElseInside(m, lo, t, k, hi);
    }
    assert m.j.blocks.home[k] == HomeOf(m.j.b.nodes, k);
  }

  lemma ElseInside(m: Verified, lo: nat, t: nat, k: nat, hi: nat)
    requires Segment(m.j, lo, hi) && lo < t < hi && t < k < |m.j.b.nodes| && m.j.b.nodes[k].CIf? &&
      ElseBefore(m.j, t, k)
    requires StackAt(m.j.b.nodes, t + 1) == StackAt(m.j.b.nodes, lo)
    ensures k < hi && StackAt(m.j.b.nodes, k) == StackAt(m.j.b.nodes, lo)
    ensures IsBlock(m.j, t + 1, k - 1, Top(StackAt(m.j.b.nodes, lo)), Some((k, Else)))
  {
    hide StackAt, IsArm;
    var nodes := m.j.b.nodes;
    assert nodes[t + 1].CBlock? by { BlockInterior(nodes, t + 1, k - 1); }
    var end := ClosesInside(m, lo, t + 1, hi);
    assert end == k - 1 by { ClosesUnique(nodes, t + 1, end, k - 1); }
    assert !nodes[k].CEnd?;
  }

  /** The CIf a then arm belongs to, and the else arm between them. */
  lemma ArmNodes(m: Verified, t: nat) returns (k: nat)
    requires t < |m.j.b.nodes| && m.j.blocks.arm[t].Some? && m.j.blocks.arm[t].value.1 == Then
    ensures ArmsOf(m.j, t, k)
  {
    k := m.j.blocks.arm[t].value.0;
    assert ArmOf(m.j.b.nodes, t, k, Then);
    assert ArmsInPlace(m.j.b, m.unit, k) && Claimed(m.j.b.nodes, m.j.blocks.arm, k);
    if TwoArmed(m.j.b.nodes, k) {
      BlockInterior(m.j.b.nodes, t + 1, k - 1);
    }
  }

  /** Every run of whole statements of a bundle that obeys the block rules is some nested program. */
  lemma {:induction false} HasShape(m: Verified, lo: nat, hi: nat) returns (c: Code)
    requires Segment(m.j, lo, hi)
    ensures Shape(m.j, lo, hi, Top(StackAt(m.j.b.nodes, lo)), c)
    decreases hi - lo, 1
  {
    if lo == hi {
      return Done;
    }
    SegmentStart(m, lo, hi);
    if m.j.b.nodes[lo].CBlock? {
      c := HasShapeBlock(m, lo, hi);
    } else {
      assert Some(m.table[lo]) == LineFor(m.j, lo);
      RestSegment(m, lo, lo + 1, hi);
      var rest := HasShape(m, lo + 1, hi);
      c := if m.j.b.nodes[lo].CCall? then LetCall(lo, EmitCall(m.j, lo).value, rest) else LetUnit(lo, rest);
    }
  }

  lemma {:induction false} HasShapeBlock(m: Verified, lo: nat, hi: nat) returns (c: Code)
    requires Segment(m.j, lo, hi)
    requires lo < hi && m.j.b.nodes[lo].CBlock?
    ensures Shape(m.j, lo, hi, Top(StackAt(m.j.b.nodes, lo)), c)
    decreases hi - lo, 0
  {
    hide Shape;
    var end := ClosesInside(m, lo, lo, hi);
    NotElseArm(m, lo, end);
    var body := HasBody(m, lo, end);
    if m.j.blocks.arm[end].None? {
      var rest := HasRest(m, lo, end + 1, hi);
      c := MakeBlock(m.j, lo, end, hi, Top(StackAt(m.j.b.nodes, lo)), body, rest);
    } else {
      c := HasShapeIf(m, lo, end, hi, body);
    }
  }

  lemma {:induction false} HasBody(m: Verified, block: nat, end: nat) returns (body: Code)
    requires block < end && Closes(m.j.b.nodes, block, end)
    ensures Shape(m.j, block + 1, end, Some(block), body)
    decreases end - block - 1, 2
  {
    InnerSegment(m, block, end);
    body := HasShape(m, block + 1, end);
  }

  lemma {:induction false} HasShapeIf(m: Verified, lo: nat, t: nat, hi: nat, body: Code) returns (c: Code)
    requires Segment(m.j, lo, hi) && lo < t < hi && Closes(m.j.b.nodes, lo, t)
    requires StackAt(m.j.b.nodes, t + 1) == StackAt(m.j.b.nodes, lo)
    requires m.j.blocks.arm[t].Some? && m.j.blocks.arm[t].value.1 == Then
    requires IsBlock(m.j, lo, t, Top(StackAt(m.j.b.nodes, lo)), m.j.blocks.arm[t])
    requires Shape(m.j, lo + 1, t, Some(lo), body)
    ensures Shape(m.j, lo, hi, Top(StackAt(m.j.b.nodes, lo)), c)
    decreases hi - lo - 1, 3
  {
    var k := ThenArm(m, lo, t, hi);
    var els, rest := HasArms(m, lo, t, k, hi);
    c := MakeIf(m.j, lo, t, k, hi, Top(StackAt(m.j.b.nodes, lo)), body, els, rest);
  }

  lemma {:induction false} HasArms(m: Verified, lo: nat, t: nat, k: nat, hi: nat) returns (els: ElseArm, rest: Code)
    requires Segment(m.j, lo, hi) && lo < t < k < hi && IsCIf(m.j, k)
    requires StackAt(m.j.b.nodes, k) == StackAt(m.j.b.nodes, lo)
    requires m.j.b.nodes[k].else_.PoolRef? ==> k == t + 1
    requires m.j.b.nodes[k].else_.NodeRef? ==>
      t + 1 < k - 1 && m.j.b.nodes[k].else_ == NodeRef(k - 1) && Closes(m.j.b.nodes, t + 1, k - 1)
    ensures ElseShape(m.j, t, k, els) && Shape(m.j, k + 1, hi, Top(StackAt(m.j.b.nodes, lo)), rest)
    decreases hi - lo - 1, 2
  {
    rest := HasRest(m, lo, k + 1, hi);
    els := HasElse(m, t, k);
  }

  /** The statements after the one that fills `lo` to `mid`. */
  lemma {:induction false} HasRest(m: Verified, lo: nat, mid: nat, hi: nat)
      returns (rest: Code)
    requires Segment(m.j, lo, hi)
    requires lo < mid <= hi && StackAt(m.j.b.nodes, mid) == StackAt(m.j.b.nodes, lo) && m.j.blocks.arm[mid - 1].None?
    ensures Shape(m.j, mid, hi, Top(StackAt(m.j.b.nodes, lo)), rest)
    decreases hi - mid, 2
  {
    RestSegment(m, lo, mid, hi);
    rest := HasShape(m, mid, hi);
  }

  ghost predicate ElseShape(j: Job, t: nat, k: nat, els: ElseArm)
    requires Sized(j) && t < k < |j.b.nodes| && j.b.nodes[k].CIf?
  {
    match els
    case UnitArm => k == t + 1 && j.b.nodes[k].else_.PoolRef?
    case CodeArm(code, ev) =>
      && t + 1 < k - 1 && j.b.nodes[k - 1].CEnd?
      && j.b.nodes[k].else_ == NodeRef(k - 1) && ev == TakeAt(j, j.b.nodes[k - 1].value, k - 1)
      && Shape(j, t + 2, k - 1, Some(t + 1), code)
  }

  lemma {:induction false} HasElse(m: Verified, t: nat, k: nat) returns (els: ElseArm)
    requires t < k < |m.j.b.nodes| && m.j.b.nodes[k].CIf?
    requires m.j.b.nodes[k].else_.PoolRef? ==> k == t + 1
    requires m.j.b.nodes[k].else_.NodeRef? ==>
      t + 1 < k - 1 && m.j.b.nodes[k].else_ == NodeRef(k - 1) && Closes(m.j.b.nodes, t + 1, k - 1)
    ensures ElseShape(m.j, t, k, els)
    decreases k - t, 1
  {
    if m.j.b.nodes[k].else_.PoolRef? {
      els := UnitArm;
    } else {
      var code := HasBody(m, t + 1, k - 1);
      els := CodeArm(code, TakeAt(m.j, m.j.b.nodes[k - 1].value, k - 1));
    }
  }

  lemma MakeBlock(j: Job, lo: nat, e: nat, hi: nat, home: Option<nat>, body: Code, rest: Code) returns (c: Code)
    requires Sized(j) && lo < e < hi <= |j.b.nodes| && IsBlock(j, lo, e, home, None)
    requires Shape(j, lo + 1, e, Some(lo), body) && Shape(j, e + 1, hi, home, rest)
    ensures Shape(j, lo, hi, home, c)
  {
    c := LetBlock(e, body, TakeAt(j, j.b.nodes[e].value, e), rest);
  }

  lemma MakeIf(j: Job, lo: nat, t: nat, k: nat, hi: nat, home: Option<nat>, thn: Code, els: ElseArm, rest: Code)
      returns (c: Code)
    requires Sized(j) && lo < t < k < hi <= |j.b.nodes| && IsCIf(j, k)
    requires IsBlock(j, lo, t, home, Some((k, Then))) && j.b.nodes[k].then_ == NodeRef(t) && j.blocks.home[k] == home
    requires Shape(j, lo + 1, t, Some(lo), thn) && Shape(j, k + 1, hi, home, rest) && ElseShape(j, t, k, els)
    requires els.CodeArm? ==> IsBlock(j, t + 1, k - 1, home, Some((k, Else)))
    ensures Shape(j, lo, hi, home, c)
  {
    c := LetIf(k, j.b.nodes[k].cond, thn, TakeAt(j, j.b.nodes[t].value, t), els, rest);
  }
}
