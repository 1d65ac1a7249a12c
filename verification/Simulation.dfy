/** Running the nested program does what running the flat node list does. */
module Simulation {
  import opened CoreIr
  import opened Blocks
  import opened Fault
  import opened RustCode
  import opened Emit
  import opened FlatIr

  /** Variables in scope hold the values the flat run yielded. */
  ghost predicate Agrees(env: map<Ref, Value>, f: State) {
    forall r :: r in env ==> r in f.env && f.env[r] == env[r]
  }

  /** Nothing at or past position `p` has run yet. */
  ghost predicate Fresh(f: State, p: nat) {
    && (forall b :: b in f.live ==> b < p)
    && (forall r :: r in f.env && r.NodeRef? ==> r.i < p)
  }

  /** The flat state after a stretch that started in `f` at `lo`: it only adds. */
  ghost predicate Grown(f: State, f': State, lo: nat, hi: nat) {
    && f.live <= f'.live && (forall b :: b in f'.live ==> b in f.live || lo <= b < hi)
    && (forall r :: r in f.env ==> r in f'.env && f'.env[r] == f.env[r])
    && (forall r :: r in f'.env ==> r in f.env || (r.NodeRef? && lo <= r.i < hi))
  }

  /** A stretch inside a block that does not run changes nothing. */
  lemma {:induction false} Idle(m: Machine, j: Job, lo: nat, hi: nat, home: Option<nat>, c: Code, f: State)
    requires Sized(j) && Shape(j, lo, hi, home, c) && !HomeRuns(f, home) && Fresh(f, lo)
    ensures Run(m, j, lo, hi, f) == f
    decreases c, 1
  {
    hide CallNode, EmitCall, IfSource, Selected, TakeAt, Opens, IsBlock, ElseShape;
    match c
    case Done =>
    case LetCall(i, call, rest) =>
      Idle(m, j, lo + 1, hi, home, rest, f);
    case LetUnit(i, rest) =>
      Idle(m, j, lo + 1, hi, home, rest, f);
    case LetBlock(_, _, _, _) =>
      IdleLetBlock(m, j, lo, hi, home, c, f);
    case LetIf(_, _, _, _, _, _) =>
      IdleIf(m, j, lo, hi, home, c, f);
  }

  lemma {:induction false} IdleLetBlock(m: Machine, j: Job, lo: nat, hi: nat, home: Option<nat>, c: Code, f: State)
    requires Sized(j) && Shape(j, lo, hi, home, c) && !HomeRuns(f, home) && Fresh(f, lo) && c.LetBlock?
    ensures Run(m, j, lo, hi, f) == f
    decreases c, 0
  {
    hide Shape, IsBlock, Run, HomeRuns;
    BlockParts(j, lo, hi, home, c);
    IdleBlock(m, j, lo, c.e, hi, home, None, c.body, f);
    Idle(m, j, c.e + 1, hi, home, c.rest, f);
  }

  lemma {:induction false} IdleIf(m: Machine, j: Job, lo: nat, hi: nat, home: Option<nat>, c: Code, f: State)
    requires Sized(j) && Shape(j, lo, hi, home, c) && !HomeRuns(f, home) && Fresh(f, lo) && c.LetIf?
    ensures Run(m, j, lo, hi, f) == f
    decreases c, 0
  {
    hide Shape, ElseShape, CallNode, IfSource, Selected, IsBlock;
    IfParts(j, lo, hi, home, c);
    var t, k := j.blocks.partner[lo].value, c.k;
    IdleBlock(m, j, lo, t, hi, home, Some((k, Then)), c.thn, f);
    IdleElse(m, j, t, k, hi, home, c.els, f);
    assert Step(m, j, k, f) == f;
    Idle(m, j, k + 1, hi, home, c.rest, f);
  }

  lemma {:induction false} IdleElse(m: Machine, j: Job, t: nat, k: nat, hi: nat, home: Option<nat>, els: ElseArm,
                                    f: State)
    requires Sized(j) && ElsePart(j, t, k, home, els) && k < hi <= |j.b.nodes| && !HomeRuns(f, home) && Fresh(f, t + 1)
    ensures Run(m, j, t + 1, hi, f) == Run(m, j, k, hi, f)
    decreases els, 4
  {
    hide Run, Step;
    if els.CodeArm? {
      IdleBlock(m, j, t + 1, k - 1, hi, home, Some((k, Else)), els.code, f);
    }
  }

  lemma {:induction false} IdleBlock(m: Machine, j: Job, block: nat, end: nat, hi: nat, home: Option<nat>,
                                     arm: Option<(nat, ArmSide)>, body: Code, f: State)
    requires Sized(j) && block < end < hi <= |j.b.nodes| && IsBlock(j, block, end, home, arm)
    requires Shape(j, block + 1, end, Some(block), body) && !HomeRuns(f, home) && Fresh(f, block)
    ensures Run(m, j, block, hi, f) == Run(m, j, end + 1, hi, f)
    decreases body, 3
  {
    hide CallNode, EmitCall, IfSource, TakeAt;
    assert Step(m, j, block, f) == f;
    PassOver(m, j, block, end, hi, home, arm, body, f);
  }

  /** A block that is not selected: neither its nodes nor its CEnd do anything. */
  lemma {:induction false} PassOver(m: Machine, j: Job, block: nat, end: nat, hi: nat, home: Option<nat>,
                                    arm: Option<(nat, ArmSide)>, body: Code, f: State)
    requires Sized(j) && block < end < hi <= |j.b.nodes| && IsBlock(j, block, end, home, arm)
    requires Shape(j, block + 1, end, Some(block), body) && Fresh(f, block) && Step(m, j, block, f) == f
    ensures Run(m, j, block, hi, f) == Run(m, j, end + 1, hi, f)
    decreases body, 2
  {
    hide CallNode, EmitCall, IfSource, Selected, TakeAt, Shape;
    RunSplit(m, j, block + 1, end, hi, f);
    Idle(m, j, block + 1, end, Some(block), body, f);
    assert Step(m, j, end, f) == f;
  }

  // ----- calls -----

  /** The emitted argument expressions evaluate to the arguments the flat call reads. */
  lemma {:induction false} ArgsMatch(j: Job, at: nat, slots: seq<Slot>, native: Option<seq<NativeArg>>, args: seq<Ref>,
                                     fr: Frame, f: State)
    requires |slots| == |args| && (native.Some? ==> |native.value| == |args|)
    requires EmitArgs(j, at, slots, native, args).Some? && Agrees(fr.env, f)
    requires EvalArgs(EmitArgs(j, at, slots, native, args).value, fr).Some?
    ensures ArgValues(j, slots, args, f.env) ==
            Some(EvalArgs(EmitArgs(j, at, slots, native, args).value, fr).value.0)
    decreases |args|
  {
    if args != [] {
      var rest := if native.Some? then Some(native.value[1..]) else None;
      var exprs := EmitArgs(j, at, slots, native, args).value;
      assert exprs[1..] == EmitArgs(j, at, slots[1..], rest, args[1..]).value;
      var fr' := match exprs[0]
                 case Own(t) => fr.(moved := fr.moved + MovedBy(t))
                 case _ => fr;
      ArgsMatch(j, at, slots[1..], rest, args[1..], fr', f);
    }
  }

  /** The values the pre-check looks at are the data arguments of the call. */
  lemma {:induction false} GuardsMatch(j: Job, slots: seq<Slot>, args: seq<Ref>, fr: Frame, f: State)
    requires |slots| == |args| && AllUsable(fr, DataRefs(slots, args)) && Agrees(fr.env, f)
    requires forall i :: 0 <= i < |args| && slots[i] == FnSlot ==> IsFnRef(j.kinds, args[i])
    ensures ArgValues(j, slots, args, f.env).Some?
    ensures DataValues(ArgValues(j, slots, args, f.env).value) == Values(fr, DataRefs(slots, args))
    decreases |args|
  {
    if args != [] {
      var refs, rest := DataRefs(slots, args), DataRefs(slots[1..], args[1..]);
      assert forall r :: r in rest ==> r in refs;
      GuardsMatch(j, slots[1..], args[1..], fr, f);
      if slots[0] == DataSlot {
        assert refs[1..] == rest && args[0] in refs;
      } else {
        assert refs == rest;
      }
      var vals := ArgValues(j, slots, args, f.env).value;
      assert vals[1..] == ArgValues(j, slots[1..], args[1..], f.env).value;
    }
  }

  lemma {:induction false} FnSlotsHoldPaths(j: Job, at: nat, slots: seq<Slot>, native: Option<seq<NativeArg>>,
      args: seq<Ref>, i: nat)
    requires |slots| == |args| && (native.Some? ==> |native.value| == |args|)
    requires EmitArgs(j, at, slots, native, args).Some? && i < |args| && slots[i] == FnSlot
    ensures IsFnRef(j.kinds, args[i])
    decreases |args|
  {
    if i > 0 {
      FnSlotsHoldPaths(j, at, slots[1..], if native.Some? then Some(native.value[1..]) else None, args[1..], i - 1);
    }
  }

  lemma CallMatches(m: Machine, j: Job, i: nat, call: CallExpr, fr: Frame, f: State)
    requires i < |j.b.nodes| && j.b.nodes[i].CCall? && EmitCall(j, i) == Some(call)
    requires f.status == Running && f.w == fr.w && Agrees(fr.env, f) && Fresh(f, i)
    ensures MatchesValue(EvalCall(m, call, fr), f, CallNode(m, j, i, f), i, i + 1, i)
  {
    hide Sticky, Truthy, PureDet, GuardRun, GuardPre, ForeignCall, EvalArgs, ArgValues, DataValues;
    var CCall(target, args, name) := j.b.nodes[i];
    var callee := j.tables.resolve(target, name).value;
    var slots, native := SlotsOf(j.tables, callee, |args|).value, j.tables.native(callee.name);
    forall q | 0 <= q < |args| && slots[q] == FnSlot
      ensures IsFnRef(j.kinds, args[q])
    {
      FnSlotsHoldPaths(j, i, slots, native, args, q);
    }
    if !callee.foreign && AllUsable(fr, call.guards) {
      GuardsMatch(j, slots, args, fr, f);
    }
    if EvalArgs(call.args, fr).Some? {
      ArgsMatch(j, i, slots, native, args, fr, f);
    }
  }

  // ----- a stretch that runs -----

  ghost predicate Matches(r: Res, f: State, f': State, lo: nat, hi: nat) {
    match r
    case Stuck => true
    case Halted(h, w) => f'.status == Stopped(h) && f'.w == w
    case Going(fr) => f'.status == Running && f'.w == fr.w && Agrees(fr.env, f') && Grown(f, f', lo, hi)
  }

  /** The flat state `f'` in which node `at` has yielded what the expression `r` evaluates to. */
  ghost predicate MatchesValue(r: ValueRes, f: State, f': State, lo: nat, hi: nat, at: nat) {
    match r
    case VStuck => true
    case VHalted(h, w) => f'.status == Stopped(h) && f'.w == w
    case Got(v, _, w) =>
      && f'.status == Running && f'.w == w && Grown(f, f', lo, hi)
      && NodeRef(at) in f'.env && f'.env[NodeRef(at)] == v
  }

  /** The states a simulation starts from. */
  ghost predicate Ahead(fr: Frame, f: State, lo: nat, home: Option<nat>) {
    f.status == Running && f.w == fr.w && Agrees(fr.env, f) && Fresh(f, lo) && HomeRuns(f, home)
  }

  /** If the nested program does not get stuck, the flat run from the matching state ends in the matching state. */
  lemma {:induction false} Simulates(m: Machine, j: Job, lo: nat, hi: nat, home: Option<nat>, c: Code, fr: Frame,
      f: State)
    requires Sized(j) && Shape(j, lo, hi, home, c) && Ahead(fr, f, lo, home)
    ensures Matches(Eval(m, c, fr), f, Run(m, j, lo, hi, f), lo, hi)
    decreases c, 1
  {
    hide CallNode, EmitCall, IfSource, Selected, TakeAt, EvalCall, Opens, IsBlock, ElseShape;
    match c
    case Done =>
    case LetCall(i, call, rest) =>
      CallMatches(m, j, lo, call, fr, f);
      Continues(m, j, lo, lo + 1, hi, home, i, EvalCall(m, call, fr), rest, fr, f);
    case LetUnit(i, rest) =>
      Continues(m, j, lo, lo + 1, hi, home, i, Got(Unit, fr.moved, fr.w), rest, fr, f);
    case LetBlock(_, _, _, _) => BlockSimulates(m, j, lo, hi, home, c, fr, f);
    case LetIf(_, _, _, _, _, _) => IfSimulates(m, j, lo, hi, home, c, fr, f);
  }

  lemma {:induction false} BlockSimulates(m: Machine, j: Job, lo: nat, hi: nat, home: Option<nat>, c: Code, fr: Frame,
      f: State)
    requires Sized(j) && Shape(j, lo, hi, home, c) && Ahead(fr, f, lo, home) && c.LetBlock?
    ensures Matches(Eval(m, c, fr), f, Run(m, j, lo, hi, f), lo, hi)
    decreases c, 0, 1
  {
    hide Shape, Step, Run, MatchesValue, Fresh;
    BlockParts(j, lo, hi, home, c);
    assert Selected(j, lo, f) == Some(true);
    hide Selected, IsBlock;
    BlockMatches(m, j, lo, c.e, home, None, c.body, c.value, fr, f);
    Continues(m, j, lo, c.e + 1, hi, home, c.e, EvalBlock(m, c.body, c.value, fr), c.rest, fr, f);
  }

  lemma {:induction false} IfSimulates(m: Machine, j: Job, lo: nat, hi: nat, home: Option<nat>, c: Code, fr: Frame,
      f: State)
    requires Sized(j) && Shape(j, lo, hi, home, c) && Ahead(fr, f, lo, home) && c.LetIf?
    ensures Matches(Eval(m, c, fr), f, Run(m, j, lo, hi, f), lo, hi)
    decreases c, 0, 1
  {
    hide Shape, Step, Run, MatchesValue, IsBlock, ElsePart, Fresh;
    IfParts(j, lo, hi, home, c);
    if Usable(fr, c.cond) {
      IfMatches(m, j, lo, j.blocks.partner[lo].value, hi, home, c, fr, f);
      Continues(m, j, lo, c.k + 1, hi, home, c.k, IfValue(m, c, fr), c.rest, fr, f);
    }
  }

  function IfValue(m: Machine, c: Code, fr: Frame): ValueRes
    requires c.LetIf? && Usable(fr, c.cond)
  {
    var v := fr.env[c.cond];
    if Sticky(v) then Got(v, fr.moved, fr.w)
    else if Truthy(v) then EvalBlock(m, c.thn, c.thnVal, fr)
    else ElseValue(m, c.els, fr)
  }

  function ElseValue(m: Machine, els: ElseArm, fr: Frame): ValueRes {
    match els
    case UnitArm => Got(Unit, fr.moved, fr.w)
    case CodeArm(code, ev) => EvalBlock(m, code, ev, fr)
  }

  /** Once one statement matches, so does the rest. */
  lemma {:induction false} Continues(m: Machine, j: Job, lo: nat, mid: nat, hi: nat, home: Option<nat>, at: nat,
                                     r: ValueRes, rest: Code, fr: Frame, f: State)
    requires Sized(j) && lo <= at < mid <= hi <= |j.b.nodes| && Shape(j, mid, hi, home, rest) && Ahead(fr, f, lo, home)
    requires MatchesValue(r, f, Run(m, j, lo, mid, f), lo, mid, at)
    ensures Matches(Bind(m, at, r, fr, rest), f, Run(m, j, lo, hi, f), lo, hi)
    decreases rest, 2
  {
    hide Step, Shape, Run;
    RunSplit(m, j, lo, mid, hi, f);
    var f1 := Run(m, j, lo, mid, f);
    if r.VHalted? {
      RunStopped(m, j, mid, hi, f1);
    } else if r.Got? {
      var fr1 := Frame(fr.env[NodeRef(at) := r.v], r.moved, r.w);
      assert Ahead(fr1, f1, mid, home);
      Simulates(m, j, mid, hi, home, rest, fr1, f1);
      MatchesOn(Eval(m, rest, fr1), f, f1, Run(m, j, mid, hi, f1), lo, mid, hi);
    }
  }

  lemma MatchesOn(r: Res, f: State, f1: State, f2: State, lo: nat, mid: nat, hi: nat)
    requires lo <= mid <= hi && Grown(f, f1, lo, mid) && Matches(r, f1, f2, mid, hi)
    ensures Matches(r, f, f2, lo, hi)
  {
  }

  /** A selected block: its body, then the value its CEnd yields. */
  lemma {:induction false} BlockMatches(m: Machine, j: Job, block: nat, end: nat, home: Option<nat>,
                                        arm: Option<(nat, ArmSide)>, body: Code, v: Take, fr: Frame, f: State)
    requires Sized(j) && block < end < |j.b.nodes| && IsBlock(j, block, end, home, arm) && v.r == j.b.nodes[end].value
    requires Shape(j, block + 1, end, Some(block), body) && Ahead(fr, f, block, home)
    requires Selected(j, block, f) == Some(true)
    ensures MatchesValue(EvalBlock(m, body, v, fr), f, Run(m, j, block, end + 1, f), block, end + 1, end)
    decreases body, 2
  {
    hide Shape, IsBlock, Selected, Step, Matches, MatchesValue;
    var f0 := f.(live := f.live + {block});
    var f1 := Run(m, j, block + 1, end, f0);
    BlockOpens(m, j, block, end, home, arm, fr, f);
    assert Run(m, j, block, end + 1, f) == Step(m, j, end, f1) by {
      RunSplit(m, j, block + 1, end, end + 1, f0);
    }
    Simulates(m, j, block + 1, end, Some(block), body, fr, f0);
    EndYields(m, j, block, end, Eval(m, body, fr), v, f, f0, f1);
  }

  lemma BlockOpens(m: Machine, j: Job, block: nat, end: nat, home: Option<nat>, arm: Option<(nat, ArmSide)>, fr: Frame,
                   f: State)
    requires Sized(j) && block < end < |j.b.nodes| && IsBlock(j, block, end, home, arm) && Ahead(fr, f, block, home)
    requires Selected(j, block, f) == Some(true)
    ensures j.b.nodes[end].CEnd? && j.blocks.partner[end] == Some(block)
    ensures var f0 := f.(live := f.live + {block});
      Step(m, j, block, f) == f0 && Ahead(fr, f0, block + 1, Some(block))
  {
  }

  lemma EndYields(m: Machine, j: Job, block: nat, end: nat, r: Res, v: Take, f: State, f0: State, f1: State)
    requires Sized(j) && block < end < |j.b.nodes| && j.b.nodes[end].CEnd? && v.r == j.b.nodes[end].value
    requires j.blocks.partner[end] == Some(block) && Fresh(f, block) && f0 == f.(live := f.live + {block})
    requires Matches(r, f0, f1, block + 1, end)
    ensures MatchesValue(match r
                         case Going(fr) => EvalTake(v, fr)
                         case Halted(h, w) => VHalted(h, w)
                         case Stuck => VStuck, f, Step(m, j, end, f1), block, end + 1, end)
  {
    if r.Going? && Usable(r.f, v.r) {
      assert Step(m, j, end, f1) == Yield(f1, end, r.f.env[v.r]);
    }
  }

  /** The else arm is passed over unless the condition is known and false. */
  lemma PassElse(m: Machine, j: Job, t: nat, k: nat, home: Option<nat>, els: ElseArm, f: State)
    requires Sized(j) && ElsePart(j, t, k, home, els) && Fresh(f, t + 1) && f.status == Running
    requires var cond := j.b.nodes[k].cond; cond in f.env && (Sticky(f.env[cond]) || Truthy(f.env[cond]))
    ensures Run(m, j, t + 1, k + 1, f) == Step(m, j, k, f)
  {
    hide CallNode, Shape;
    if els.CodeArm? {
      assert Selected(j, t + 1, f) == Some(false);
      PassOver(m, j, t + 1, k - 1, k + 1, home, Some((k, Else)), els.code, f);
    }
    assert Run(m, j, k, k + 1, f) == Step(m, j, k, f);
  }

  lemma PassThen(m: Machine, j: Job, lo: nat, t: nat, k: nat, home: Option<nat>, thn: Code, f: State)
    requires Sized(j) && lo < t < |j.b.nodes| && IsCIf(j, k) && IsBlock(j, lo, t, home, Some((k, Then)))
    requires Shape(j, lo + 1, t, Some(lo), thn) && Fresh(f, lo)
    requires var cond := j.b.nodes[k].cond; cond in f.env && (Sticky(f.env[cond]) || !Truthy(f.env[cond]))
    ensures Run(m, j, lo, t + 1, f) == f
  {
    assert Selected(j, lo, f) == Some(false);
    PassOver(m, j, lo, t, t + 1, home, Some((k, Then)), thn, f);
  }

  /** The then arm ran: the CIf yields its value. */
  lemma ThenRan(m: Machine, j: Job, lo: nat, t: nat, k: nat, home: Option<nat>, els: ElseArm, r: ValueRes, f: State,
                f1: State)
    requires Sized(j) && lo < t && ElsePart(j, t, k, home, els) && Fresh(f, lo) && HomeRuns(f, home)
    requires var cond := j.b.nodes[k].cond; cond in f.env && !Sticky(f.env[cond]) && Truthy(f.env[cond])
    requires MatchesValue(r, f, f1, lo, t + 1, t)
    ensures MatchesValue(r, f, Run(m, j, t + 1, k + 1, f1), lo, k + 1, k)
  {
    hide CallNode, Selected, Opens;
    if r.VHalted? {
      RunStopped(m, j, t + 1, k + 1, f1);
    } else if r.Got? {
      PassElse(m, j, t, k, home, els, f1);
      assert Step(m, j, k, f1) == Yield(f1, k, r.v);
    }
  }

  /** The else arm ran: the CIf yields its value. */
  lemma ElseRan(m: Machine, j: Job, lo: nat, t: nat, k: nat, home: Option<nat>, r: ValueRes, f: State, f1: State)
    requires Sized(j) && lo <= t < k < |j.b.nodes| && j.b.nodes[k].CIf? && j.blocks.home[k] == home
    requires j.b.nodes[k].else_ == NodeRef(k - 1) && HomeRuns(f, home) && Fresh(f, lo)
    requires var cond := j.b.nodes[k].cond; cond in f.env && !Sticky(f.env[cond]) && !Truthy(f.env[cond])
    requires MatchesValue(r, f, f1, t + 1, k, k - 1)
    ensures MatchesValue(r, f, Step(m, j, k, f1), lo, k + 1, k)
  {
    if r.Got? {
      assert Step(m, j, k, f1) == Yield(f1, k, r.v);
    }
  }

  /** The then arm did not run. */
  lemma {:induction false} ElseMatches(m: Machine, j: Job, lo: nat, t: nat, k: nat, home: Option<nat>, els: ElseArm,
                                       fr: Frame, f: State)
    requires Sized(j) && lo < t && ElsePart(j, t, k, home, els) && Ahead(fr, f, lo, home)
    requires var cond := j.b.nodes[k].cond; Usable(fr, cond) && !Sticky(fr.env[cond]) && !Truthy(fr.env[cond])
    ensures MatchesValue(ElseValue(m, els, fr), f, Run(m, j, t + 1, k + 1, f), lo, k + 1, k)
    decreases els, 3
  {
    if els.UnitArm? {
      assert Run(m, j, k, k + 1, f) == Step(m, j, k, f) == Yield(f, k, Unit);
    } else {
      ElseRuns(m, j, lo, t, k, home, els, fr, f);
    }
  }

  lemma {:induction false} ElseRuns(m: Machine, j: Job, lo: nat, t: nat, k: nat, home: Option<nat>, els: ElseArm,
                                    fr: Frame, f: State)
    requires Sized(j) && lo < t && ElsePart(j, t, k, home, els) && Ahead(fr, f, lo, home) && els.CodeArm?
    requires var cond := j.b.nodes[k].cond; Usable(fr, cond) && !Sticky(fr.env[cond]) && !Truthy(fr.env[cond])
    ensures MatchesValue(ElseValue(m, els, fr), f, Run(m, j, t + 1, k + 1, f), lo, k + 1, k)
    decreases els, 2
  {
    hide Step, MatchesValue, EvalBlock, Shape;
    assert Selected(j, t + 1, f) == Some(true);
    BlockMatches(m, j, t + 1, k - 1, home, Some((k, Else)), els.code, els.value, fr, f);
    var f1 := Run(m, j, t + 1, k, f);
    ElseRan(m, j, lo, t, k, home, ElseValue(m, els, fr), f, f1);
    assert Run(m, j, t + 1, k + 1, f) == Step(m, j, k, f1) by {
      RunSplit(m, j, t + 1, k, k + 1, f);
      assert Run(m, j, k, k + 1, f1) == Step(m, j, k, f1);
    }
  }

  /** A whole `if`, read at its then arm and yielded at its CIf. */
  lemma {:induction false} IfMatches(m: Machine, j: Job, lo: nat, t: nat, hi: nat, home: Option<nat>, c: Code,
      fr: Frame, f: State)
    requires Sized(j) && Shape(j, lo, hi, home, c) && Ahead(fr, f, lo, home) && c.LetIf? && Usable(fr, c.cond)
    requires j.blocks.partner[lo] == Some(t)
    ensures MatchesValue(IfValue(m, c, fr), f, Run(m, j, lo, c.k + 1, f), lo, c.k + 1, c.k)
    decreases c, 0, 0
  {
    var v := fr.env[c.cond];
    RunSplit(m, j, lo, t + 1, c.k + 1, f);
    if !Sticky(v) && Truthy(v) {
      TakesThen(m, j, lo, t, hi, home, c, fr, f);
    } else {
      SkipsThen(m, j, lo, t, hi, home, c, fr, f);
    }
  }

  lemma {:induction false} SkipsThen(m: Machine, j: Job, lo: nat, t: nat, hi: nat, home: Option<nat>, c: Code,
      fr: Frame, f: State)
    requires Sized(j) && Shape(j, lo, hi, home, c) && Ahead(fr, f, lo, home) && c.LetIf? && Usable(fr, c.cond)
    requires j.blocks.partner[lo] == Some(t) && (Sticky(fr.env[c.cond]) || !Truthy(fr.env[c.cond]))
    ensures t < c.k < |j.b.nodes|
    ensures MatchesValue(IfValue(m, c, fr), f, Run(m, j, t + 1, c.k + 1, Run(m, j, lo, t + 1, f)), lo, c.k + 1, c.k)
    decreases c, 0, 0, 0
  {
    hide Step, Run, Shape, MatchesValue, IsBlock, ElsePart, Fresh;
    IfParts(j, lo, hi, home, c);
    PassThen(m, j, lo, t, c.k, home, c.thn, f);
    NotThen(m, j, lo, t, c.k, home, c.els, fr, f);
  }

  lemma {:induction false} TakesThen(m: Machine, j: Job, lo: nat, t: nat, hi: nat, home: Option<nat>, c: Code,
      fr: Frame, f: State)
    requires Sized(j) && Shape(j, lo, hi, home, c) && Ahead(fr, f, lo, home) && c.LetIf? && Usable(fr, c.cond)
    requires j.blocks.partner[lo] == Some(t) && !Sticky(fr.env[c.cond]) && Truthy(fr.env[c.cond])
    ensures t < c.k < |j.b.nodes|
    ensures MatchesValue(EvalBlock(m, c.thn, c.thnVal, fr), f, Run(m, j, t + 1, c.k + 1, Run(m, j, lo, t + 1, f)),
                         lo, c.k + 1, c.k)
    decreases c, 0, 0, 0
  {
    hide Step, Run, Shape, MatchesValue, ElsePart, Fresh;
    IfParts(j, lo, hi, home, c);
    assert Selected(j, lo, f) == Some(true);
    BlockMatches(m, j, lo, t, home, Some((c.k, Then)), c.thn, c.thnVal, fr, f);
    ThenRan(m, j, lo, t, c.k, home, c.els, EvalBlock(m, c.thn, c.thnVal, fr), f, Run(m, j, lo, t + 1, f));
  }

  lemma {:induction false} NotThen(m: Machine, j: Job, lo: nat, t: nat, k: nat, home: Option<nat>, els: ElseArm,
                                   fr: Frame, f: State)
    requires Sized(j) && lo < t && ElsePart(j, t, k, home, els) && Ahead(fr, f, lo, home)
    requires var cond := j.b.nodes[k].cond; Usable(fr, cond) && (Sticky(fr.env[cond]) || !Truthy(fr.env[cond]))
    ensures var v := fr.env[j.b.nodes[k].cond];
      MatchesValue(if Sticky(v) then Got(v, fr.moved, fr.w) else ElseValue(m, els, fr), f,
                   Run(m, j, t + 1, k + 1, f), lo, k + 1, k)
    decreases els, 4
  {
    var v := fr.env[j.b.nodes[k].cond];
    if Sticky(v) {
      PassElse(m, j, t, k, home, els, f);
      assert Step(m, j, k, f) == Yield(f, k, v);
    } else {
      ElseMatches(m, j, lo, t, k, home, els, fr, f);
    }
  }
}
