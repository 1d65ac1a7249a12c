/** What the flat node list means, said of the bundle alone: which nodes run, what they yield, what a call does. */
module Meaning {
  import opened CoreIr
  import opened Blocks
  import opened Fault
  import opened RustCode
  import opened Emit
  import opened FlatIr
  import opened Simulation

  // ----- which nodes run -----

  predicate IsTrue(env: map<Ref, Value>, r: Ref) {
    r in env && env[r].Data? && env[r].truth
  }

  predicate IsFalse(env: map<Ref, Value>, r: Ref) {
    r in env && (env[r].Unit? || (env[r].Data? && !env[r].truth))
  }

  predicate IsGap(v: Value) {
    v.Unknown? || v.Err?
  }

  /** The block that ends at `e` is an arm of the CIf `k`. */
  predicate ArmIn(b: Bundle, e: nat, k: nat) {
    k < |b.nodes| && b.nodes[k].CIf? && (b.nodes[k].then_ == NodeRef(e) || b.nodes[k].else_ == NodeRef(e))
  }

  predicate Selects(b: Bundle, env: map<Ref, Value>, e: nat, k: nat)
    requires k < |b.nodes| && b.nodes[k].CIf?
  {
    && (b.nodes[k].then_ == NodeRef(e) ==> IsTrue(env, b.nodes[k].cond))
    && (b.nodes[k].else_ == NodeRef(e) ==> IsFalse(env, b.nodes[k].cond))
  }

  /** The block that ends at `e` is no arm, or its CIf selects it. */
  ghost predicate Chosen(b: Bundle, env: map<Ref, Value>, e: nat) {
    forall k {:trigger ArmIn(b, e, k)} :: 0 <= k < |b.nodes| && ArmIn(b, e, k) ==> Selects(b, env, e, k)
  }

  /** Every block that encloses node `i` is chosen. */
  ghost predicate Runs(b: Bundle, env: map<Ref, Value>, i: nat)
    requires i <= |b.nodes|
  {
    forall h, e: nat {:trigger Closes(b.nodes, h, e)} :: h in StackAt(b.nodes, i) && Closes(b.nodes, h, e) ==>
      Chosen(b, env, e)
  }

  /** The value of a node that has yielded, from the values it reads. */
  predicate Yielded(b: Bundle, env: map<Ref, Value>, i: nat)
    requires i < |b.nodes| && NodeRef(i) in env
  {
    var v := env[NodeRef(i)];
    match b.nodes[i]
    case CEnd(value) => value in env && v == env[value]
    case CDeterminate => v == Unit
    case CIf(cond, then_, else_) =>
      && cond in env
      && (IsGap(env[cond]) ==> v == env[cond])
      && (IsTrue(env, cond) ==> then_ in env && v == env[then_])
      && (IsFalse(env, cond) && else_.PoolRef? ==> v == Unit)
      && (IsFalse(env, cond) && else_.NodeRef? ==> else_ in env && v == env[else_])
    case _ => true
  }

  /** A node yields exactly when it runs; a CBlock yields nothing. */
  ghost predicate NodeMeans(b: Bundle, env: map<Ref, Value>, i: nat)
    requires i < |b.nodes|
  {
    && (NodeRef(i) in env <==> !b.nodes[i].CBlock? && Runs(b, env, i))
    && (NodeRef(i) in env ==> Yielded(b, env, i))
  }

  // ----- the same, by the blocks that are live -----

  ghost predicate Decided(b: Bundle, env: map<Ref, Value>, e: nat) {
    forall k {:trigger ArmIn(b, e, k)} :: 0 <= k < |b.nodes| && ArmIn(b, e, k) ==> b.nodes[k].cond in env
  }

  predicate Inside(nodes: seq<Node>, live: set<nat>, i: nat)
    requires i <= |nodes|
  {
    var h := Top(StackAt(nodes, i));
    h.None? || h.value in live
  }

  ghost predicate BlockNow(b: Bundle, f: State, h: nat, e: nat)
    requires h < |b.nodes|
  {
    && (h in f.live <==> Inside(b.nodes, f.live, h) && Chosen(b, f.env, e))
    && (Inside(b.nodes, f.live, h) ==> Decided(b, f.env, e))
  }

  ghost predicate NodeNow(b: Bundle, f: State, i: nat)
    requires i < |b.nodes|
  {
    if b.nodes[i].CBlock? then
      NodeRef(i) !in f.env && forall e: nat {:trigger Closes(b.nodes, i, e)} :: Closes(b.nodes, i, e) ==>
        BlockNow(b, f, i, e)
    else
      && (NodeRef(i) in f.env <==> Inside(b.nodes, f.live, i))
      && (NodeRef(i) in f.env ==> Yielded(b, f.env, i))
  }

  lemma EnclosingIsEarlier(nodes: seq<Node>, i: nat)
    requires i <= |nodes| && StackAt(nodes, i) != []
    ensures var h := Top(StackAt(nodes, i)).value;
      h < i && nodes[h].CBlock? && StackAt(nodes, i) == StackAt(nodes, h) + [h]
  {
    var s := StackAt(nodes, i);
    StackPrefix(nodes, i, |s| - 1);
    assert s == s[..|s| - 1] + [s[|s| - 1]];
  }

  lemma DecidedStays(b: Bundle, f: State, w: State, p: nat, e: nat)
    requires Grown(f, w, p, p + 1) && Decided(b, f.env, e)
    ensures Decided(b, w.env, e) && (Chosen(b, w.env, e) <==> Chosen(b, f.env, e))
  {
    forall k | 0 <= k < |b.nodes| && ArmIn(b, e, k)
      ensures Selects(b, w.env, e, k) <==> Selects(b, f.env, e, k)
    {
      assert b.nodes[k].cond in f.env;
    }
  }

  lemma InsideStays(nodes: seq<Node>, f: State, w: State, p: nat, i: nat)
    requires i <= p && i <= |nodes| && Grown(f, w, p, p + 1)
    ensures Inside(nodes, w.live, i) <==> Inside(nodes, f.live, i)
  {
    if StackAt(nodes, i) != [] {
      EnclosingIsEarlier(nodes, i);
    }
  }

  lemma NodeStays(b: Bundle, f: State, w: State, p: nat, i: nat)
    requires i < p && i < |b.nodes| && Grown(f, w, p, p + 1) && NodeNow(b, f, i)
    ensures NodeNow(b, w, i)
  {
    InsideStays(b.nodes, f, w, p, i);
    if b.nodes[i].CBlock? {
      forall e: nat | Closes(b.nodes, i, e)
        ensures BlockNow(b, w, i, e)
      {
        assert BlockNow(b, f, i, e);
        if Inside(b.nodes, f.live, i) {
          DecidedStays(b, f, w, p, e);
        }
      }
    }
  }

  /** The tables say of a block's end what the CIfs of the bundle say. */
  lemma ArmTable(j: Job, e: nat, k: nat)
    requires Ready(j) && e < |j.b.nodes| && j.b.nodes[e].CEnd? && k < |j.b.nodes| && j.b.nodes[k].CIf?
    ensures j.b.nodes[k].then_ == NodeRef(e) <==> j.blocks.arm[e] == Some((k, Then))
    ensures j.b.nodes[k].else_ == NodeRef(e) <==> j.blocks.arm[e] == Some((k, Else))
  {
    assert Claimed(j.b.nodes, j.blocks.arm, k);
    if j.blocks.arm[e].Some? {
      assert ArmOf(j.b.nodes, e, j.blocks.arm[e].value.0, j.blocks.arm[e].value.1);
    }
  }

  lemma SelectedIsChosen(j: Job, h: nat, e: nat, f: State)
    requires Ready(j) && h < |j.b.nodes| && j.b.nodes[h].CBlock? && Closes(j.b.nodes, h, e)
    ensures Selected(j, h, f).Some? <==> Decided(j.b, f.env, e)
    ensures Selected(j, h, f).Some? ==> (Selected(j, h, f).value <==> Chosen(j.b, f.env, e))
  {
    assert j.blocks.partner[h] == Some(e);
    forall k | 0 <= k < |j.b.nodes| && j.b.nodes[k].CIf?
      ensures j.b.nodes[k].then_ == NodeRef(e) <==> j.blocks.arm[e] == Some((k, Then))
      ensures j.b.nodes[k].else_ == NodeRef(e) <==> j.blocks.arm[e] == Some((k, Else))
    {
      ArmTable(j, e, k);
    }
    if j.blocks.arm[e].Some? {
      var (k, side) := j.blocks.arm[e].value;
      assert ArmOf(j.b.nodes, e, k, side);
      assert ArmIn(j.b, e, k);
    }
  }

  lemma CallAdds(m: Machine, j: Job, i: nat, f: State)
    requires i < |j.b.nodes| && j.b.nodes[i].CCall? && f.status == Running
    ensures var w := CallNode(m, j, i, f);
      w.live == f.live && (w.status == Running ==>
        NodeRef(i) in w.env && w.env == f.env[NodeRef(i) := w.env[NodeRef(i)]])
  {
  }

  /** After its own step, a node is as it should be. */
  lemma NodeComes(m: Machine, j: Job, i: nat, f: State)
    requires Ready(j) && i < |j.b.nodes| && Fresh(f, i) && f.status == Running
    requires Step(m, j, i, f).status == Running
    ensures NodeNow(j.b, Step(m, j, i, f), i) && Grown(f, Step(m, j, i, f), i, i + 1) && Fresh(Step(m, j, i, f), i + 1)
  {
    hide CallNode;
    var w := Step(m, j, i, f);
    assert HomeOf(j.b.nodes, i) == j.blocks.home[i];
    if j.b.nodes[i].CCall? {
      CallAdds(m, j, i, f);
    }
    assert Grown(f, w, i, i + 1);
    InsideStays(j.b.nodes, f, w, i, i);
    if j.b.nodes[i].CBlock? {
      forall e: nat | Closes(j.b.nodes, i, e)
        ensures BlockNow(j.b, w, i, e)
      {
        SelectedIsChosen(j, i, e, f);
      }
    } else if j.b.nodes[i].CEnd? {
      assert HasOpen(j.b.nodes, i);
    }
  }

  /** The state before node `p`: everything earlier is as it should be, nothing later has happened. */
  ghost predicate Meant(j: Job, f: State, p: nat)
    requires p <= |j.b.nodes|
  {
    Fresh(f, p) && forall i :: 0 <= i < p ==> NodeNow(j.b, f, i)
  }

  lemma {:induction false} RunMeant(m: Machine, j: Job, f: State, p: nat)
    requires Ready(j) && p <= |j.b.nodes| && Fresh(f, 0) && f.status == Running
    requires Run(m, j, 0, p, f).status == Running
    ensures Meant(j, Run(m, j, 0, p, f), p)
  {
    if p > 0 {
      var g, w := Run(m, j, 0, p - 1, f), Run(m, j, 0, p, f);
      RunSplit(m, j, 0, p - 1, p, f);
      assert w == Step(m, j, p - 1, g);
      RunMeant(m, j, f, p - 1);
      NodeComes(m, j, p - 1, g);
      forall i | 0 <= i < p
        ensures NodeNow(j.b, w, i)
      {
        if i < p - 1 {
          NodeStays(j.b, g, w, p - 1, i);
        }
      }
    }
  }

  /** What has a value keeps it. */
  lemma {:induction false} RunAdds(m: Machine, j: Job, lo: nat, hi: nat, f: State)
    requires Sized(j) && lo <= hi <= |j.b.nodes| && Fresh(f, lo)
    ensures var w := Run(m, j, lo, hi, f); forall r :: r in f.env ==> r in w.env && w.env[r] == f.env[r]
    decreases hi - lo
  {
    if lo < hi {
      StepAdds(m, j, lo, f);
      RunAdds(m, j, lo + 1, hi, Step(m, j, lo, f));
    }
  }

  lemma StepAdds(m: Machine, j: Job, i: nat, f: State)
    requires Sized(j) && i < |j.b.nodes| && Fresh(f, i)
    ensures var w := Step(m, j, i, f); Fresh(w, i + 1) && forall r :: r in f.env ==> r in w.env && w.env[r] == f.env[r]
  {
  }

  /** A live block is one all of whose enclosing blocks, itself included, are chosen. */
  lemma {:induction false} InsideIsRuns(j: Job, f: State, p: nat, i: nat)
    requires Ready(j) && p <= |j.b.nodes| && Meant(j, f, p) && i <= p
    ensures Inside(j.b.nodes, f.live, i) <==> Runs(j.b, f.env, i)
    decreases i
  {
    var nodes, s := j.b.nodes, StackAt(j.b.nodes, i);
    if s != [] {
      EnclosingIsEarlier(nodes, i);
      var h := Top(s).value;
      InsideIsRuns(j, f, p, h);
      var end := EveryBlockCloses(nodes, h, i);
      assert NodeNow(j.b, f, h) && BlockNow(j.b, f, h, end);
      forall g, e: nat | g in s && Closes(nodes, g, e)
        ensures g in StackAt(nodes, h) || e == end
      {
        if g == h {
          ClosesUnique(nodes, h, e, end);
        }
      }
    }
  }

  /**
   * Where a node runs is in the bundle: after any stretch of the run a node has yielded exactly when every block that
   * encloses it is chosen, and its value is the one its kind gives from the values it reads.
   */
  lemma NodesMean(m: Machine, j: Job, env: map<Ref, Value>, w: World, p: nat, i: nat)
    requires Ready(j) && i < p <= |j.b.nodes| && forall r :: r in env ==> r.PoolRef?
    ensures var f := Run(m, j, 0, p, FlatIr.State(env, {}, w, Running));
      f.status == Running ==> NodeMeans(j.b, f.env, i)
  {
    var start := FlatIr.State(env, {}, w, Running);
    var f := Run(m, j, 0, p, start);
    if f.status == Running {
      RunMeant(m, j, start, p);
      InsideIsRuns(j, f, p, i);
      assert NodeNow(j.b, f, i);
    }
  }

  // ----- what a call does -----

  /** `vals` are the arguments: the path for a function slot, the value for a data slot. */
  predicate Supplies(j: Job, slots: seq<Slot>, args: seq<Ref>, env: map<Ref, Value>, vals: seq<Arg>)
    requires |slots| == |args|
  {
    && |vals| == |args|
    && forall p :: 0 <= p < |args| ==>
         if slots[p] == FnSlot then IsFnRef(j.kinds, args[p]) && vals[p] == FnArg(j.kinds[args[p].i].path)
         else args[p] in env && vals[p] == DataArg(env[args[p]])
  }

  lemma {:induction false} SuppliedAre(j: Job, slots: seq<Slot>, args: seq<Ref>, env: map<Ref, Value>, vals: seq<Arg>)
    requires |slots| == |args| && Supplies(j, slots, args, env, vals)
    ensures ArgValues(j, slots, args, env) == Some(vals)
    decreases |args|
  {
    if args != [] {
      SuppliedAre(j, slots[1..], args[1..], env, vals[1..]);
      assert vals == [vals[0]] + vals[1..];
    } else {
      assert vals == [];
    }
  }

  predicate GapAt(vals: seq<Arg>, p: nat) {
    p < |vals| && vals[p].DataArg? && IsGap(vals[p].v)
  }

  /** The first argument that is an Unknown or an Err. */
  predicate FirstGap(vals: seq<Arg>, p: nat) {
    GapAt(vals, p) && forall q: nat :: q < p ==> !GapAt(vals, q)
  }

  lemma {:induction false} FirstGapIs(vals: seq<Arg>, p: nat)
    requires FirstGap(vals, p)
    ensures FirstSticky(DataValues(vals)) == Some(vals[p].v)
    decreases p
  {
    var values := DataValues(vals);
    if p == 0 {
      assert values[0] == vals[0].v;
    } else {
      assert !GapAt(vals, 0);
      forall q: nat | q < p - 1
        ensures !GapAt(vals[1..], q)
      {
        assert !GapAt(vals, q + 1) && (q < |vals[1..]| ==> vals[1..][q] == vals[q + 1]);
      }
      FirstGapIs(vals[1..], p - 1);
      if vals[0].DataArg? {
        assert values[1..] == DataValues(vals[1..]);
      } else {
        assert values == DataValues(vals[1..]);
      }
    }
  }

  lemma {:induction false} NoGapIs(vals: seq<Arg>)
    requires forall p: nat :: !GapAt(vals, p)
    ensures FirstSticky(DataValues(vals)) == None
    decreases |vals|
  {
    if vals != [] {
      assert !GapAt(vals, 0);
      forall q: nat
        ensures !GapAt(vals[1..], q)
      {
        assert !GapAt(vals, q + 1) && (q < |vals[1..]| ==> vals[1..][q] == vals[q + 1]);
      }
      NoGapIs(vals[1..]);
      if vals[0].DataArg? {
        assert DataValues(vals)[1..] == DataValues(vals[1..]);
      } else {
        assert DataValues(vals) == DataValues(vals[1..]);
      }
    }
  }

  /** A call node about to run that resolves to `callee`. */
  predicate Calls(j: Job, i: nat, f: State, callee: Callee) {
    && Sized(j) && i < |j.b.nodes| && j.b.nodes[i].CCall? && f.status == Running && HomeRuns(f, j.blocks.home[i])
    && j.tables.resolve(j.b.nodes[i].target, j.b.nodes[i].name) == Some(callee)
  }

  /** After a fault on record a call that may act does nothing, and yields the fault once it has its arguments. */
  lemma FaultStopsEffects(m: Machine, j: Job, i: nat, f: State, callee: Callee)
    requires Calls(j, i, f, callee) && !callee.foreign && f.w.faulted.Some?
    requires MayAct(j.tables, j.b.pool, j.b.nodes[i])
    ensures Step(m, j, i, f).w == f.w
    ensures forall slots, vals {:trigger Supplies(j, slots, j.b.nodes[i].args, f.env, vals)} ::
      |slots| == |j.b.nodes[i].args| && SlotsAre(j, callee, slots) &&
      Supplies(j, slots, j.b.nodes[i].args, f.env, vals) ==>
        Step(m, j, i, f) == f.(env := f.env[NodeRef(i) := f.w.faulted.value])
  {
    var n := j.b.nodes[i];
    PureDetIs(j.tables, j.b.pool, n);
    forall slots, vals | |slots| == |n.args| && SlotsAre(j, callee, slots) && Supplies(j, slots, n.args, f.env, vals)
      ensures Step(m, j, i, f) == f.(env := f.env[NodeRef(i) := f.w.faulted.value])
    {
      SlotsAreThose(j, callee, slots, |n.args|);
      SuppliedAre(j, slots, n.args, f.env, vals);
    }
  }

  /** A call that is not stopped by a fault yields its first Unknown or Err argument and does nothing else. */
  lemma GapPassesThrough(m: Machine, j: Job, i: nat, f: State, callee: Callee, slots: seq<Slot>, vals: seq<Arg>, p: nat)
    requires Calls(j, i, f, callee) && !callee.foreign
    requires f.w.faulted.Some? ==> !MayAct(j.tables, j.b.pool, j.b.nodes[i])
    requires |slots| == |j.b.nodes[i].args| && SlotsAre(j, callee, slots)
    requires Supplies(j, slots, j.b.nodes[i].args, f.env, vals) && FirstGap(vals, p)
    ensures Step(m, j, i, f) == f.(env := f.env[NodeRef(i) := vals[p].v])
  {
    var n := j.b.nodes[i];
    PureDetIs(j.tables, j.b.pool, n);
    SlotsAreThose(j, callee, slots, |n.args|);
    SuppliedAre(j, slots, n.args, f.env, vals);
    FirstGapIs(vals, p);
  }

  /** How a guarded body that ran ends the step of its node. */
  ghost predicate EndsAs(m: Machine, name: string, acts: bool, out: Fault.Outcome, f: State, w: State, i: nat) {
    match out
    case Returns(v, _) => w.status == Running && w.env == f.env[NodeRef(i) := v]
    case Panics(msg, _) =>
      if !acts then w.status == Stopped(Defect(name, msg))
      else if m.classify(name, msg).Some? then
        w.status == Running && w.env == f.env[NodeRef(i) := Err(m.classify(name, msg).value, name, msg)]
      else if m.abortMode then w.status == Stopped(Exit70)
      else w.status == Running && w.env == f.env[NodeRef(i) := Unknown("bridge_fault", name, msg)]
  }

  /** Otherwise the body runs, on exactly the values the node names, and its end decides what the node yields. */
  lemma BodyRuns(m: Machine, j: Job, i: nat, f: State, callee: Callee, slots: seq<Slot>, vals: seq<Arg>)
    requires Calls(j, i, f, callee) && !callee.foreign
    requires f.w.faulted.Some? ==> !MayAct(j.tables, j.b.pool, j.b.nodes[i])
    requires |slots| == |j.b.nodes[i].args| && SlotsAre(j, callee, slots)
    requires Supplies(j, slots, j.b.nodes[i].args, f.env, vals) && forall p: nat :: !GapAt(vals, p)
    ensures var w, acts := Step(m, j, i, f), MayAct(j.tables, j.b.pool, j.b.nodes[i]);
      && f.w.trace + [Ran(callee.name, true, acts, vals)] <= w.w.trace
      && EndsAs(m, callee.name, acts, m.run(f.w.trace, callee.name, vals), f, w, i)
  {
    var n := j.b.nodes[i];
    PureDetIs(j.tables, j.b.pool, n);
    SlotsAreThose(j, callee, slots, |n.args|);
    SuppliedAre(j, slots, n.args, f.env, vals);
    NoGapIs(vals);
  }

  /** A call into another bundle always runs it: its own calls are guarded. */
  lemma ForeignRuns(m: Machine, j: Job, i: nat, f: State, callee: Callee, slots: seq<Slot>, vals: seq<Arg>)
    requires Calls(j, i, f, callee) && callee.foreign
    requires |slots| == |j.b.nodes[i].args| && SlotsAre(j, callee, slots)
    requires Supplies(j, slots, j.b.nodes[i].args, f.env, vals)
    ensures var w, out := Step(m, j, i, f), m.run(f.w.trace, callee.path, vals);
      && f.w.trace + [Ran(callee.path, false, true, vals)] <= w.w.trace
      && match out
         case Returns(v, _) => w.status == Running && w.env == f.env[NodeRef(i) := v]
         case Panics(msg, _) => w.status == Stopped(Unwound(msg))
  {
    var n := j.b.nodes[i];
    SlotsAreThose(j, callee, slots, |n.args|);
    SuppliedAre(j, slots, n.args, f.env, vals);
  }

  /** The event is the body of a call of the bundle, marked as acting exactly when that call may act. */
  ghost predicate FromCall(j: Job, e: Event) {
    exists i: nat {:trigger CalledBy(j, e, i)} :: CalledBy(j, e, i)
  }

  predicate CalledBy(j: Job, e: Event, i: nat) {
    && i < |j.b.nodes| && j.b.nodes[i].CCall? && e.Ran?
    && var callee := j.tables.resolve(j.b.nodes[i].target, j.b.nodes[i].name);
    callee.Some? && e.callee == callee.value.name && (e.effectful <==> MayAct(j.tables, j.b.pool, j.b.nodes[i]))
  }

  /** Guarded bodies that ran since the trace was `n` long come from calls of the bundle. */
  ghost predicate CallsSince(j: Job, trace: seq<Event>, n: nat) {
    forall q :: n <= q < |trace| && trace[q].Ran? && trace[q].guarded ==> FromCall(j, trace[q])
  }

  lemma StepCalls(m: Machine, j: Job, i: nat, f: State)
    requires Sized(j) && i < |j.b.nodes|
    ensures f.w.trace <= Step(m, j, i, f).w.trace
    ensures CallsSince(j, Step(m, j, i, f).w.trace, |f.w.trace|)
  {
    hide GuardRun, ForeignCall, GuardPre, ArgValues, PureDet;
    if j.b.nodes[i].CCall? && f.status == Running && HomeRuns(f, j.blocks.home[i]) {
      var CCall(target, args, name) := j.b.nodes[i];
      PureDetIs(j.tables, j.b.pool, j.b.nodes[i]);
      var callee := j.tables.resolve(target, name);
      if callee.Some? && SlotsOf(j.tables, callee.value, |args|).Some? {
        var vals := ArgValues(j, SlotsOf(j.tables, callee.value, |args|).value, args, f.env);
        if vals.Some? {
          var effectful := !PureDet(j.tables, j.b.pool, target, args);
          GuardTrace(m, f.w, callee.value.name, effectful, vals.value);
          ForeignTrace(m, f.w, callee.value.path, vals.value);
          assert CalledBy(j, Ran(callee.value.name, true, effectful, vals.value), i);
        }
      }
    }
  }

  lemma {:induction false} RunCalls(m: Machine, j: Job, lo: nat, hi: nat, f: State)
    requires Sized(j) && lo <= hi <= |j.b.nodes|
    ensures f.w.trace <= Run(m, j, lo, hi, f).w.trace
    ensures CallsSince(j, Run(m, j, lo, hi, f).w.trace, |f.w.trace|)
    decreases hi - lo
  {
    if lo < hi {
      var w := Step(m, j, lo, f);
      StepCalls(m, j, lo, f);
      RunCalls(m, j, lo + 1, hi, w);
      var trace := Run(m, j, lo, hi, f).w.trace;
      assert forall q :: |f.w.trace| <= q < |w.w.trace| ==> trace[q] == w.w.trace[q];
    }
  }
}
