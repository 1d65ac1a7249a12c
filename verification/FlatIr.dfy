/** The meaning of a flat node list: one pass in index order, in which a node runs exactly when every block that
    encloses it runs. */
module FlatIr {
  import opened CoreIr
  import opened Blocks
  import opened Fault
  import opened RustCode
  import opened Emit

  datatype Status = Running | Stopped(h: Halt) | Undefined

  /** `env` holds every value yielded so far, `live` the blocks that run. */
  datatype State = State(env: map<Ref, Value>, live: set<nat>, w: World, status: Status)

  function Yield(f: State, i: nat, v: Value): State {
    f.(env := f.env[NodeRef(i) := v])
  }

  predicate HomeRuns(f: State, home: Option<nat>) {
    home.None? || home.value in f.live
  }

  /** Whether a CBlock's block runs, given that the block around it does; `None` when a condition has no value. */
  function Selected(j: Job, i: nat, f: State): Option<bool>
    requires Sized(j) && i < |j.b.nodes|
  {
    match Opens(j, i)
    case None => None
    case Some((_, None)) => Some(true)
    case Some((_, Some((k, side)))) =>
      var cond := j.b.nodes[k].cond;
      if cond !in f.env then None
      else if Sticky(f.env[cond]) then Some(false)
      else Some(Truthy(f.env[cond]) == (side == Then))
  }

  /** A CIf yields its condition when that is Unknown or Err, else the value of the arm that ran. */
  function IfSource(j: Job, k: nat, f: State): Option<Value>
    requires k < |j.b.nodes| && j.b.nodes[k].CIf?
  {
    var CIf(cond, then_, else_) := j.b.nodes[k];
    if cond !in f.env then None
    else if Sticky(f.env[cond]) then Some(f.env[cond])
    else if Truthy(f.env[cond]) then (if then_ in f.env then Some(f.env[then_]) else None)
    else if else_.PoolRef? then Some(Unit)
    else (if else_ in f.env then Some(f.env[else_]) else None)
  }

  function ArgValues(j: Job, slots: seq<Slot>, args: seq<Ref>, env: map<Ref, Value>): Option<seq<Arg>>
    requires |slots| == |args|
    decreases |args|
  {
    if args == [] then Some([]) else
    var rest := ArgValues(j, slots[1..], args[1..], env);
    if rest.None? then None
    else if slots[0] == FnSlot then
      (if IsFnRef(j.kinds, args[0]) then Some([FnArg(j.kinds[args[0].i].path)] + rest.value) else None)
    else if args[0] in env then Some([DataArg(env[args[0]])] + rest.value)
    else None
  }

  function DataValues(args: seq<Arg>): seq<Value> {
    if args == [] then [] else (if args[0].DataArg? then [args[0].v] else []) + DataValues(args[1..])
  }

  /** A call node: resolve, read the arguments, and call through the guard (another bundle is called directly). */
  function CallNode(m: Machine, j: Job, i: nat, f: State): State
    requires i < |j.b.nodes| && j.b.nodes[i].CCall?
  {
    var CCall(target, args, name) := j.b.nodes[i];
    var callee := j.tables.resolve(target, name);
    if callee.None? || SlotsOf(j.tables, callee.value, |args|).None? then f.(status := Undefined) else
    var slots := SlotsOf(j.tables, callee.value, |args|).value;
    var vals := ArgValues(j, slots, args, f.env);
    if vals.None? then f.(status := Undefined) else
    var effectful := !PureDet(j.tables, j.b.pool, target, args);
    var pre := if callee.value.foreign then None else GuardPre(f.w, effectful, DataValues(vals.value));
    if pre.Some? then Yield(f, i, pre.value) else
    match (if callee.value.foreign then ForeignCall(m, f.w, callee.value.path, vals.value)
           else GuardRun(m, f.w, callee.value.name, effectful, vals.value))
    case Yields(v, w) => Yield(f.(w := w), i, v)
    case Halts(h, w) => f.(w := w, status := Stopped(h))
  }

  function Step(m: Machine, j: Job, i: nat, f: State): State
    requires Sized(j) && i < |j.b.nodes|
  {
    if f.status != Running then f else
    match j.b.nodes[i]
    case CEnd(value) =>
      if j.blocks.partner[i].None? || j.blocks.partner[i].value !in f.live then f
      else if value in f.env then Yield(f, i, f.env[value]) else f.(status := Undefined)
    case CBlock =>
      if !HomeRuns(f, j.blocks.home[i]) then f else
      (match Selected(j, i, f)
       case None => f.(status := Undefined)
       case Some(runs) => if runs then f.(live := f.live + {i}) else f)
    case CIf(_, _, _) =>
      if !HomeRuns(f, j.blocks.home[i]) then f else
      (match IfSource(j, i, f)
       case None => f.(status := Undefined)
       case Some(v) => Yield(f, i, v))
    case CCall(_, _, _) => if HomeRuns(f, j.blocks.home[i]) then CallNode(m, j, i, f) else f
    case CDeterminate => if HomeRuns(f, j.blocks.home[i]) then Yield(f, i, Unit) else f
  }

  function Run(m: Machine, j: Job, lo: nat, hi: nat, f: State): State
    requires Sized(j) && lo <= hi <= |j.b.nodes|
    decreases hi - lo
  {
    if lo == hi then f else Run(m, j, lo + 1, hi, Step(m, j, lo, f))
  }

  lemma {:induction false} RunSplit(m: Machine, j: Job, lo: nat, mid: nat, hi: nat, f: State)
    requires Sized(j) && lo <= mid <= hi <= |j.b.nodes|
    ensures Run(m, j, lo, hi, f) == Run(m, j, mid, hi, Run(m, j, lo, mid, f))
    decreases mid - lo
  {
    if lo < mid {
      RunSplit(m, j, lo + 1, mid, hi, Step(m, j, lo, f));
    }
  }

  lemma {:induction false} RunStopped(m: Machine, j: Job, lo: nat, hi: nat, f: State)
    requires Sized(j) && lo <= hi <= |j.b.nodes| && f.status != Running
    ensures Run(m, j, lo, hi, f) == f
    decreases hi - lo
  {
    if lo < hi {
      RunStopped(m, j, lo + 1, hi, f);
    }
  }
}
