/** The back end as a whole: a bundle the decoder and the block verifier accept is emitted as a program that the
    Rust compiler accepts and that does exactly what the flat node list says. */
module Backend {
  import opened CoreIr
  import opened Counting
  import opened Blocks
  import opened Fault
  import opened RustCode
  import opened LastUse
  import opened Emit
  import opened FlatIr
  import opened Simulation
  import opened MoveSafety
  import opened Meaning

  /** The body of the emitted function: the node lines, then the result expression, which takes its value. */
  datatype Program = Program(lines: seq<Line>, result: Ref)

  datatype Outcome = Finished(v: Value, w: World) | Aborted(h: Halt, w: World) | Broken

  /** The variables bound before the first node: one per pool entry that is not a function. */
  function PoolVars(j: Job): set<Ref> {
    set q | 0 <= q < |j.b.pool| && !IsFnRef(j.kinds, PoolRef(q)) :: PoolRef(q)
  }

  predicate ParamsFit(kinds: seq<PoolKind>, params: seq<Value>) {
    forall q :: 0 <= q < |kinds| && kinds[q].Param? ==> kinds[q].slot < |params|
  }

  /** Their values: the constants, and the arguments in their parameter slots. */
  function PoolEnv(j: Job, params: seq<Value>): (env: map<Ref, Value>)
    requires |j.kinds| == |j.b.pool| && ParamsFit(j.kinds, params)
    ensures env.Keys == PoolVars(j)
    ensures forall q: nat :: q < |j.kinds| && j.kinds[q].Constant? ==>
      PoolRef(q) in env && env[PoolRef(q)] == j.kinds[q].v
    ensures forall q: nat :: q < |j.kinds| && j.kinds[q].Param? ==>
      PoolRef(q) in env && env[PoolRef(q)] == params[j.kinds[q].slot]
  {
    map r | r in PoolVars(j) :: if j.kinds[r.i].Constant? then j.kinds[r.i].v else params[j.kinds[r.i].slot]
  }

  /** A run starts in the world its caller left, which may already have a fault on record. */
  function RunProgram(m: Machine, p: Program, env: map<Ref, Value>, w: World): Outcome {
    match ReadCode(p.lines)
    case Malformed => Broken
    case Parsed(code, rest) =>
      if rest != [] then Broken else
      match Eval(m, code, Frame(env, {}, w))
      case Going(f) => if Usable(f, p.result) then Finished(f.env[p.result], f.w) else Broken
      case Halted(h, w) => Aborted(h, w)
      case Stuck => Broken
  }

  /** The bundle's meaning: its nodes in index order, then the value its result names. */
  function RunBundle(m: Machine, j: Job, env: map<Ref, Value>, w: World): Outcome
    requires Sized(j)
  {
    var f := Run(m, j, 0, |j.b.nodes|, State(env, {}, w, Running));
    match f.status
    case Running => if j.b.result in f.env then Finished(f.env[j.b.result], f.w) else Broken
    case Stopped(h) => Aborted(h, f.w)
    case Undefined => Broken
  }

  /** `p` is what the emitter wrote for `m`. */
  ghost predicate EmittedAs(m: Moving, p: Program) {
    && |m.j.kinds| == |m.j.b.pool|
    && p.lines == Joined(m.table, 0, |m.table|, []) && p.result == m.j.b.result && !IsFnRef(m.j.kinds, p.result)
  }

  /** The emitted lines are well formed and read back as the nested program of the node list. */
  lemma Reads(m: Moving, p: Program) returns (code: Code)
    requires EmittedAs(m, p)
    ensures ReadCode(p.lines) == Parsed(code, [])
    ensures Shape(m.j, 0, |m.j.b.nodes|, None, code)
  {
    WholeSegment(m);
    code := HasShape(m, 0, |m.j.b.nodes|);
    ShapeRenders(m.j, m.table, 0, |m.j.b.nodes|, None, code, []);
    ReadRender(code, []);
  }

  lemma WholeSegment(m: Verified)
    ensures Segment(m.j, 0, |m.j.b.nodes|)
  {
    forall i | 0 <= i <= |m.j.b.nodes|
      ensures Within(m.j.b.nodes, 0, i)
    {
    }
  }

  lemma StartScope(m: Moving)
    ensures ScopeAt(m, 0, Scope(PoolVars(m.j), {}))
  {
  }

  /** rustc accepts the program: every variable is in scope where it is named, and nothing is borrowed, cloned or
      moved once it may have been moved, on any path, the result expression included. */
  lemma EmittedCompiles(m: Moving, p: Program) returns (code: Code)
    requires EmittedAs(m, p)
    ensures ReadCode(p.lines) == Parsed(code, []) && Shape(m.j, 0, |m.j.b.nodes|, None, code)
    ensures var end := Check(code, Scope(PoolVars(m.j), {})); end.Some? && Free(end.value, p.result)
  {
    code := Reads(m, p);
    StartScope(m);
    var n, start := |m.j.b.nodes|, Scope(PoolVars(m.j), {});
    CheckPasses(m, 0, n, None, code, start);
    var end := Check(code, start).value;
    assert VisibleAt(m, n, p.result);
    if p.result in end.moved {
      var u: nat :| u < n && (p.result, u) in m.j.moves;
      assert MayMove(m.j.b, m.top, p.result, u) && UsedAt(m.j.b, p.result, RESULT_USE);
      assert false;
    }
  }

  /** The emitted program and the flat node list have the same value, the same events in the same order, and the same
      way of stopping, for every behaviour of the builtins, all arguments and every world to start in; neither ever
      meets an undefined value. */
  lemma EmissionPreservesMeaning(m: Moving, p: Program, mach: Machine, params: seq<Value>, w: World)
    requires EmittedAs(m, p) && ParamsFit(m.j.kinds, params)
    ensures RunProgram(mach, p, PoolEnv(m.j, params), w) == RunBundle(mach, m.j, PoolEnv(m.j, params), w)
    ensures RunBundle(mach, m.j, PoolEnv(m.j, params), w) != Broken
  {
    var code := EmittedCompiles(m, p);
    var env := PoolEnv(m.j, params);
    var fr, start := Frame(env, {}, w), Scope(PoolVars(m.j), {});
    CheckSound(mach, code, start, fr);
    Simulates(mach, m.j, 0, |m.j.b.nodes|, None, code, fr, State(env, {}, w, Running));
  }

  /**
   * The value of an emitted program, read off the bundle: there are values for the pool and the nodes in which every
   * node has one exactly when all its enclosing blocks are chosen, each is what its kind makes of the values it reads,
   * and the program's is the one the result names.
   */
  lemma ProgramMeans(m: Moving, p: Program, mach: Machine, params: seq<Value>, w: World) returns (env: map<Ref, Value>)
    requires EmittedAs(m, p) && ParamsFit(m.j.kinds, params)
    requires RunProgram(mach, p, PoolEnv(m.j, params), w).Finished?
    ensures forall r :: r in PoolEnv(m.j, params) ==> r in env && env[r] == PoolEnv(m.j, params)[r]
    ensures forall i :: 0 <= i < |m.j.b.nodes| ==> NodeMeans(m.j.b, env, i)
    ensures m.j.b.result in env && RunProgram(mach, p, PoolEnv(m.j, params), w).v == env[m.j.b.result]
  {
    var start, n := PoolEnv(m.j, params), |m.j.b.nodes|;
    EmissionPreservesMeaning(m, p, mach, params, w);
    env := Run(mach, m.j, 0, n, State(start, {}, w, Running)).env;
    forall i | 0 <= i < n
      ensures NodeMeans(m.j.b, env, i)
    {
      NodesMean(mach, m.j, start, w, n, i);
    }
    RunAdds(mach, m.j, 0, n, State(start, {}, w, Running));
  }

  // ----- faults -----

  lemma {:induction false} NoStickyData(args: seq<Arg>)
    requires FirstSticky(DataValues(args)).None?
    ensures NoStickyArg(args)
  {
    FirstStickyIsFirst(DataValues(args));
    forall a | a in args && a.DataArg?
      ensures !Sticky(a.v)
    {
      DataValueIn(args, a);
    }
  }

  lemma {:induction false} DataValueIn(args: seq<Arg>, a: Arg)
    requires a in args && a.DataArg?
    ensures a.v in DataValues(args)
  {
    if args[0] != a {
      DataValueIn(args[1..], a);
    }
  }

  lemma StepKeeps(m: Machine, j: Job, i: nat, f: State)
    requires Sized(j) && i < |j.b.nodes| && Disciplined(f.w)
    ensures var f' := Step(m, j, i, f);
      Disciplined(f'.w) && f.w.trace <= f'.w.trace && (f.w.faulted.Some? ==> f'.w.faulted == f.w.faulted)
  {
    if j.b.nodes[i].CCall? && f.status == Running && HomeRuns(f, j.blocks.home[i]) {
      var CCall(target, args, name) := j.b.nodes[i];
      var callee := j.tables.resolve(target, name);
      if callee.Some? && SlotsOf(j.tables, callee.value, |args|).Some? {
        var vals := ArgValues(j, SlotsOf(j.tables, callee.value, |args|).value, args, f.env);
        if vals.Some? {
          CallKeeps(m, f.w, callee.value, !PureDet(j.tables, j.b.pool, target, args), vals.value);
        }
      }
    }
  }

  lemma CallKeeps(m: Machine, w: World, callee: Callee, effectful: bool, args: seq<Arg>)
    requires Disciplined(w)
    ensures callee.foreign ==>
      var r := ForeignCall(m, w, callee.path, args);
      Disciplined(r.w) && w.trace <= r.w.trace && (w.faulted.Some? ==> r.w.faulted == w.faulted)
    ensures !callee.foreign && GuardPre(w, effectful, DataValues(args)).None? ==>
      var r := GuardRun(m, w, callee.name, effectful, args);
      Disciplined(r.w) && w.trace <= r.w.trace && (w.faulted.Some? ==> r.w.faulted == w.faulted)
  {
    if callee.foreign {
      ForeignCallKeeps(m, w, callee.path, args);
    } else if GuardPre(w, effectful, DataValues(args)).None? {
      NoStickyData(args);
      GuardRunKeeps(m, w, callee.name, effectful, args);
    }
  }

  lemma {:induction false} RunKeeps(m: Machine, j: Job, lo: nat, hi: nat, f: State)
    requires Sized(j) && lo <= hi <= |j.b.nodes| && Disciplined(f.w)
    ensures var f' := Run(m, j, lo, hi, f);
      Disciplined(f'.w) && f.w.trace <= f'.w.trace && (f.w.faulted.Some? ==> f'.w.faulted == f.w.faulted)
    decreases hi - lo
  {
    if lo < hi {
      StepKeeps(m, j, lo, f);
      RunKeeps(m, j, lo + 1, hi, Step(m, j, lo, f));
    }
  }

  /** On every run of an emitted program, from any disciplined world: at most one fault is recorded and it is never
      replaced, no effectful builtin body runs after it, and no guarded body is handed an Unknown or an Err. A guarded
      body that ran is one of the bundle's calls, and counts as effectful exactly when that call may act. */
  lemma NoEffectAfterFault(m: Moving, p: Program, mach: Machine, params: seq<Value>, w: World)
    requires EmittedAs(m, p) && ParamsFit(m.j.kinds, params) && Disciplined(w)
    ensures var r := RunProgram(mach, p, PoolEnv(m.j, params), w);
      && !r.Broken? && Disciplined(r.w) && w.trace <= r.w.trace
      && (w.faulted.Some? ==> r.w.faulted == w.faulted)
      && CallsSince(m.j, r.w.trace, |w.trace|)
  {
    EmissionPreservesMeaning(m, p, mach, params, w);
    RunKeeps(mach, m.j, 0, |m.j.b.nodes|, State(PoolEnv(m.j, params), {}, w, Running));
    RunCalls(mach, m.j, 0, |m.j.b.nodes|, State(PoolEnv(m.j, params), {}, w, Running));
  }

  /** An Unknown or Err condition chooses no branch: between the then arm and the CIf nothing runs. */
  lemma UnknownChoosesNoBranch(m: Machine, j: Job, lo: nat, hi: nat, home: Option<nat>, c: Code, f: State)
    requires Sized(j) && Shape(j, lo, hi, home, c) && c.LetIf? && Fresh(f, lo) && HomeRuns(f, home) &&
      f.status == Running
    requires c.cond in f.env && Sticky(f.env[c.cond])
    ensures Run(m, j, lo, c.k + 1, f) == Yield(f, c.k, f.env[c.cond])
  {
    hide Shape, Run, IsBlock;
    IfParts(j, lo, hi, home, c);
    var t := j.blocks.partner[lo].value;
    RunSplit(m, j, lo, t + 1, c.k + 1, f);
    PassThen(m, j, lo, t, c.k, home, c.thn, f);
    PassElse(m, j, t, c.k, home, c.els, f);
  }

  // ----- the pass that ties it together -----

  /** The CCall, CDeterminate and CIf nodes that sit in no block. */
  function TopLevel(b: Bundle, t: BlockTables): set<nat>
    requires |t.home| == |b.nodes|
  {
    set i | 0 <= i < |b.nodes| && t.home[i].None? && (b.nodes[i].CCall? || b.nodes[i].CDeterminate? || b.nodes[i].CIf?)
  }

  lemma TopLevelExact(b: Bundle, t: BlockTables, i: nat)
    requires Describes(t, b.nodes)
    ensures i in TopLevel(b, t) <==>
      && i < |b.nodes| && StackAt(b.nodes, i) == []
      && (b.nodes[i].CCall? || b.nodes[i].CDeterminate? || b.nodes[i].CIf?)
  {
    if i < |b.nodes| {
      assert t.home[i] == HomeOf(b.nodes, i);
    }
  }

  /** The moves are those the last-use rule allows, and all of them. */
  ghost predicate MovesDecided(j: Job)
    requires Sized(j)
  {
    forall r, u: nat :: (r, u) in j.moves <==> MayMove(j.b, TopLevel(j.b, j.blocks), r, u)
  }

  /** A read is a move exactly when it is the value's last, stands there once, and is its only one or all are on top. */
  lemma MovesExact(j: Job, r: Ref, u: nat)
    requires Ready(j) && MovesDecided(j)
    ensures (r, u) in j.moves <==>
      && UsedAt(j.b, r, u) && (u == RESULT_USE || Count(Uses(j.b.nodes[u]), r) == 1)
      && (forall v: nat :: UsedAt(j.b, r, v) ==> v <= u)
      && (|| (forall v: nat :: UsedAt(j.b, r, v) ==> v == u)
          || (u != RESULT_USE && forall v: nat :: UsedAt(j.b, r, v) ==>
                v < |j.b.nodes| && StackAt(j.b.nodes, v) == [] &&
                (j.b.nodes[v].CCall? || j.b.nodes[v].CDeterminate? || j.b.nodes[v].CIf?)))
  {
    forall v: nat
      ensures v in TopLevel(j.b, j.blocks) <==>
        && v < |j.b.nodes| && StackAt(j.b.nodes, v) == []
        && (j.b.nodes[v].CCall? || j.b.nodes[v].CDeterminate? || j.b.nodes[v].CIf?)
    {
      TopLevelExact(j.b, j.blocks, v);
    }
  }

  /** Verify, decide the moves, emit. A program comes out exactly when the block rules hold and no type gate refuses,
      and it is the emission the theorems above speak of. */
  method Compile(tables: Tables, kinds: seq<PoolKind>, b: Bundle, unit: Hash)
    returns (out: Option<Program>, ghost j: Job, ghost m: Option<Moving>)
    requires Topological(b) && |b.nodes| <= RESULT_USE && |kinds| == |b.pool|
    ensures j.tables == tables && j.kinds == kinds && j.b == b
    ensures BlockRules(b, unit) ==> Ready(j) && MovesDecided(j)
    ensures out.Some? ==> BlockRules(b, unit) && out.value.result == b.result && !IsFnRef(kinds, b.result)
    ensures out.Some? <==>
      BlockRules(b, unit) && !IsFnRef(kinds, b.result) && forall i :: 0 <= i < |b.nodes| ==> !Gated(j, i)
    ensures out.Some? ==> m.Some? && m.value.j == j && m.value.unit == unit && EmittedAs(m.value, out.value)
  {
    j, m := Job(tables, kinds, b, BlockTables([], [], []), {}), None;
    var verdict := VerifyBlocks(b, unit);
    if verdict.Refused? {
      return None, j, m;
    }
    var top := TopLevel(b, verdict.tables);
    var moves := LastUses(b, top);
    var job := Job(tables, kinds, b, verdict.tables, moves);
    j := job;
    var lines;
    ghost var table;
    lines, table := EmitBlocks(job);
    if lines.None? || IsFnRef(kinds, b.result) {
      return None, j, m;
    }
    m := Some(Emission(job, unit, table, top));
    out := Some(Program(lines.value, b.result));
  }
}
