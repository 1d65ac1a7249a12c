/** Faults as values: the guard every builtin call goes through. */
module Fault {
  import opened CoreIr

  /** A run-time value, as far as the guard and `truthy` can tell values apart. */
  datatype Value =
    | Unit
    | Unknown(kind: string, builtin: string, message: string)
    | Err(name: string, builtin: string, message: string)
    | Data(id: int, truth: bool)

  predicate Sticky(v: Value) {
    v.Unknown? || v.Err?
  }

  predicate Truthy(v: Value) {
    match v
    case Unit => false
    case Unknown(_, _, _) => true
    case Err(_, _, _) => true
    case Data(_, truth) => truth
  }

  datatype Arg = DataArg(v: Value) | FnArg(path: string)

  /** What one entry (thread) does, in order: builtin and foreign bodies that ran, and the first fault recorded. */
  datatype Event =
    | Ran(callee: string, guarded: bool, effectful: bool, args: seq<Arg>)
    | Recorded(first: Value)

  datatype World = World(trace: seq<Event>, faulted: Option<Value>, faults: nat)

  const FRESH := World([], None, 0)

  /** How a body ends; `raised` is what it recorded on the way, if anything: a `fail`, or a fault of its own calls. */
  datatype Outcome =
    | Returns(v: Value, raised: Option<Value>)
    | Panics(message: string, raised: Option<Value>)

  datatype Halt = Defect(builtin: string, message: string) | Exit70 | Unwound(message: string)

  datatype CallResult = Yields(v: Value, w: World) | Halts(h: Halt, w: World)

  /** Everything outside the generated code: the bodies (which may depend on all that ran before), the
      user's fault map and the fault mode. */
  datatype Machine = Machine(
    run: (seq<Event>, string, seq<Arg>) -> Outcome,
    classify: (string, string) -> Option<string>,
    abortMode: bool)

  /** Only the first fault of an entry is kept. */
  function Record(w: World, v: Value): World {
    if w.faulted.Some? then w else w.(trace := w.trace + [Recorded(v)], faulted := Some(v))
  }

  function AfterRaise(w: World, raised: Option<Value>): World {
    if raised.Some? then Record(w, raised.value) else w
  }

  function FirstSticky(args: seq<Value>): Option<Value> {
    if args == [] then None
    else if Sticky(args[0]) then Some(args[0])
    else FirstSticky(args[1..])
  }

  function GuardPre(w: World, effectful: bool, args: seq<Value>): Option<Value> {
    if effectful && w.faulted.Some? then w.faulted else FirstSticky(args)
  }

  function GuardRun(m: Machine, w: World, builtin: string, effectful: bool, args: seq<Arg>): CallResult {
    var out := m.run(w.trace, builtin, args);
    var w1 := AfterRaise(w.(trace := w.trace + [Ran(builtin, true, effectful, args)]), out.raised);
    match out
    case Returns(v, _) => Yields(v, w1)
    case Panics(msg, _) =>
      if !effectful then Halts(Defect(builtin, msg), w1)
      else if m.classify(builtin, msg).Some? then Yields(Err(m.classify(builtin, msg).value, builtin, msg), w1)
      else if m.abortMode then Halts(Exit70, w1)
      else
        var u := Unknown("bridge_fault", builtin, msg);
        Yields(u, Record(w1.(faults := w1.faults + 1), u))
  }

  /** A call into another bundle is not guarded: its own calls are. */
  function ForeignCall(m: Machine, w: World, symbol: string, args: seq<Arg>): CallResult {
    var out := m.run(w.trace, symbol, args);
    var w1 := AfterRaise(w.(trace := w.trace + [Ran(symbol, false, true, args)]), out.raised);
    match out
    case Returns(v, _) => Yields(v, w1)
    case Panics(msg, _) => Halts(Unwound(msg), w1)
  }

  // ----- the discipline every run keeps -----

  predicate EffectfulBody(e: Event) {
    e.Ran? && e.guarded && e.effectful
  }

  ghost predicate NoStickyArg(args: seq<Arg>) {
    forall a :: a in args && a.DataArg? ==> !Sticky(a.v)
  }

  /** At most one fault is ever recorded and it is the one in force; after it no effectful body ran; no guarded
      body was ever handed an Unknown or an Err. */
  ghost predicate Disciplined(w: World) {
    && (w.faulted.None? ==> forall e :: e in w.trace ==> e.Ran?)
    && (w.faulted.Some? ==> exists p :: RecordedAt(w, p))
    && (forall e :: e in w.trace && e.Ran? && e.guarded ==> NoStickyArg(e.args))
  }

  ghost predicate RecordedAt(w: World, p: nat) {
    && p < |w.trace| && w.faulted.Some? && w.trace[p] == Recorded(w.faulted.value)
    && (forall q :: 0 <= q < |w.trace| && q != p ==> w.trace[q].Ran?)
    && (forall q :: p < q < |w.trace| ==> !EffectfulBody(w.trace[q]))
  }

  lemma RecordKeeps(w: World, v: Value)
    requires Disciplined(w)
    ensures Disciplined(Record(w, v)) && Record(w, v).faulted.Some?
    ensures w.faulted.Some? ==> Record(w, v) == w
  {
    if w.faulted.None? {
      assert RecordedAt(Record(w, v), |w.trace|);
    }
  }

  lemma RanKeeps(w: World, e: Event)
    requires Disciplined(w) && e.Ran?
    requires e.guarded ==> NoStickyArg(e.args)
    requires w.faulted.Some? ==> !EffectfulBody(e)
    ensures Disciplined(w.(trace := w.trace + [e]))
  {
    if w.faulted.Some? {
      var p :| RecordedAt(w, p);
      assert RecordedAt(w.(trace := w.trace + [e]), p);
    }
  }

  lemma RaiseKeeps(w: World, raised: Option<Value>)
    requires Disciplined(w)
    ensures Disciplined(AfterRaise(w, raised))
    ensures w.faulted.Some? ==> AfterRaise(w, raised) == w
  {
    if raised.Some? {
      RecordKeeps(w, raised.value);
    }
  }

  /** A guarded body runs only on arguments the pre-check let through, and then keeps the discipline. */
  lemma GuardRunKeeps(m: Machine, w: World, builtin: string, effectful: bool, args: seq<Arg>)
    requires Disciplined(w) && NoStickyArg(args) && (effectful ==> w.faulted.None?)
    ensures var r := GuardRun(m, w, builtin, effectful, args);
      && Disciplined(r.w) && w.trace < r.w.trace
      && (w.faulted.Some? ==> r.w.faulted == w.faulted)
      && (effectful ==> r.Yields? || m.abortMode)
  {
    var out := m.run(w.trace, builtin, args);
    var ran := w.(trace := w.trace + [Ran(builtin, true, effectful, args)]);
    RanKeeps(w, Ran(builtin, true, effectful, args));
    RaiseKeeps(ran, out.raised);
    var w1 := AfterRaise(ran, out.raised);
    if out.Panics? && effectful {
      var w2 := w1.(faults := w1.faults + 1);
      assert Disciplined(w2) by {
        if w1.faulted.Some? {
          var p :| RecordedAt(w1, p);
          assert RecordedAt(w2, p);
        }
      }
      RecordKeeps(w2, Unknown("bridge_fault", builtin, out.message));
    }
  }

  lemma ForeignCallKeeps(m: Machine, w: World, symbol: string, args: seq<Arg>)
    requires Disciplined(w)
    ensures var r := ForeignCall(m, w, symbol, args);
      && Disciplined(r.w) && w.trace < r.w.trace
      && (w.faulted.Some? ==> r.w.faulted == w.faulted)
  {
    RanKeeps(w, Ran(symbol, false, true, args));
    RaiseKeeps(w.(trace := w.trace + [Ran(symbol, false, true, args)]), m.run(w.trace, symbol, args).raised);
  }

  /** Behind what was there a call adds the body that ran, and then nothing but a record. */
  ghost predicate Adds(before: seq<Event>, e: Event, after: seq<Event>) {
    before + [e] <= after && forall q :: |before| < q < |after| ==> after[q].Recorded?
  }

  lemma GuardTrace(m: Machine, w: World, builtin: string, effectful: bool, args: seq<Arg>)
    ensures Adds(w.trace, Ran(builtin, true, effectful, args), GuardRun(m, w, builtin, effectful, args).w.trace)
  {
  }

  lemma ForeignTrace(m: Machine, w: World, symbol: string, args: seq<Arg>)
    ensures Adds(w.trace, Ran(symbol, false, true, args), ForeignCall(m, w, symbol, args).w.trace)
  {
  }

  lemma {:induction false} FirstStickyIsFirst(args: seq<Value>)
    ensures FirstSticky(args).None? <==> forall v :: v in args ==> !Sticky(v)
    ensures FirstSticky(args).Some? ==>
      exists p :: 0 <= p < |args| && args[p] == FirstSticky(args).value && Sticky(args[p]) &&
                  forall q :: 0 <= q < p ==> !Sticky(args[q])
  {
    if args != [] && !Sticky(args[0]) {
      FirstStickyIsFirst(args[1..]);
      assert args == [args[0]] + args[1..];
      if FirstSticky(args[1..]).Some? {
        var p :| 0 <= p < |args[1..]| && args[1..][p] == FirstSticky(args).value && Sticky(args[1..][p]) &&
                 forall q :: 0 <= q < p ==> !Sticky(args[1..][q]);
        assert forall q :: 0 < q < p + 1 ==> args[q] == args[1..][q - 1];
        assert args[p + 1] == FirstSticky(args).value;
      }
    }
  }

  // ----- the thread-local state, updated in place -----

  /** One entry's fault state. `Now` is its abstract value. */
  class Entry {
    var faulted: Option<Value>
    var faults: nat
    ghost var trace: seq<Event>

    ghost function Now(): World
      reads this
    {
      World(trace, faulted, faults)
    }

    constructor ()
      ensures Now() == FRESH
    {
      faulted, faults, trace := None, 0, [];
    }

    /** `get_or_insert`: the first cause wins. */
    method Keep(v: Value)
      modifies this
      ensures Now() == Record(old(Now()), v)
      ensures faulted == (if old(faulted).Some? then old(faulted) else Some(v)) && faults == old(faults)
    {
      if faulted.None? {
        trace := trace + [Recorded(v)];
        faulted := Some(v);
      }
    }

    method Raise(message: string) returns (u: Value)
      modifies this
      ensures u == Unknown("fail", "fail", message) && Now() == Record(old(Now()), u)
      ensures faulted == (if old(faulted).Some? then old(faulted) else Some(u)) && faults == old(faults)
    {
      u := Unknown("fail", "fail", message);
      Keep(u);
    }

    method Pre(effectful: bool, args: seq<Value>) returns (r: Option<Value>)
      ensures r == GuardPre(Now(), effectful, args)
      ensures effectful && faulted.Some? ==> r == faulted
      ensures !(effectful && faulted.Some?) ==> (r.None? <==> forall v :: v in args ==> !(v.Unknown? || v.Err?))
      ensures !(effectful && faulted.Some?) && r.Some? ==>
        exists p :: 0 <= p < |args| && args[p] == r.value && (r.value.Unknown? || r.value.Err?) &&
                    forall q :: 0 <= q < p ==> !(args[q].Unknown? || args[q].Err?)
    {
      FirstStickyIsFirst(args);
      if effectful && faulted.Some? {
        return faulted;
      }
      var i := 0;
      while i < |args|
        invariant i <= |args| && FirstSticky(args) == FirstSticky(args[i..])
      {
        if Sticky(args[i]) {
          return Some(args[i]);
        }
        assert args[i..][1..] == args[i + 1..];
        i := i + 1;
      }
      r := None;
    }

    /** `out` is how the body ended; a process exit or an unwind is reported as `Some`. */
    method Run(m: Machine, builtin: string, effectful: bool, args: seq<Arg>, out: Outcome)
      returns (v: Value, stop: Option<Halt>)
      requires out == m.run(trace, builtin, args)
      modifies this
      ensures GuardRun(m, old(Now()), builtin, effectful, args) ==
              if stop.Some? then Halts(stop.value, Now()) else Yields(v, Now())
      ensures out.Returns? ==> stop.None? && v == out.v && faults == old(faults)
      ensures out.Panics? && !effectful ==> stop == Some(Defect(builtin, out.message)) && faults == old(faults)
      ensures out.Panics? && effectful && m.classify(builtin, out.message).Some? ==>
        stop.None? && v == Err(m.classify(builtin, out.message).value, builtin, out.message) && faults == old(faults)
      ensures out.Panics? && effectful && m.classify(builtin, out.message).None? && m.abortMode ==>
        stop == Some(Exit70) && faults == old(faults)
      ensures out.Panics? && effectful && m.classify(builtin, out.message).None? && !m.abortMode ==>
        stop.None? && v == Unknown("bridge_fault", builtin, out.message) && faults == old(faults) + 1 && faulted.Some?
      ensures old(faulted).Some? ==> faulted == old(faulted)
      ensures old(faulted).None? && out.raised.Some? ==> faulted == out.raised
      ensures old(faulted).None? && out.raised.None? ==>
        faulted == if faults > old(faults) then Some(v) else None
    {
      trace := trace + [Ran(builtin, true, effectful, args)];
      v, stop := Unit, None;
      if out.raised.Some? {
        Keep(out.raised.value);
      }
      if out.Returns? {
        v := out.v;
      } else if !effectful {
        stop := Some(Defect(builtin, out.message));
      } else {
        var named := m.classify(builtin, out.message);
        if named.Some? {
          v := Err(named.value, builtin, out.message);
        } else if m.abortMode {
          stop := Some(Exit70);
        } else {
          faults := faults + 1;
          v := Unknown("bridge_fault", builtin, out.message);
          Keep(v);
        }
      }
    }
  }
}
