/** The part of Rust the emitter writes: `let` bindings, nested blocks and `if`s, clones, borrows and moves.
    Lines are what is written, `Code` is how Rust reads them, `Check` is what the borrow checker demands and
    `Eval` is what running does. */
module RustCode {
  import opened CoreIr
  import opened Fault

  /** `x` when moved, `x.clone()` otherwise. */
  datatype Take = Take(r: Ref, moved: bool)

  datatype ArgExpr = Own(take: Take) | Borrow(r: Ref) | Path(path: string)

  datatype Callee = Callee(name: string, path: string, foreign: bool)

  /** `guards` are the arguments borrowed by the pre-check before the call takes anything. */
  datatype CallExpr = CallExpr(callee: Callee, effectful: bool, guards: seq<Ref>, args: seq<ArgExpr>)

  datatype Line =
    | LineCall(i: nat, call: CallExpr)     // let node_i = <call>;
    | LineUnit(i: nat)                     // let node_i = Value::Unit;
    | LineIf(k: nat, cond: Ref)            // let node_k = if <sticky cond> { cond.clone() } else if truthy(cond) {
    | LineElse(v: Take)                    // v } else {
    | LineElseUnit(v: Take)                // v } else { Value::Unit };
    | LineBlock(e: nat)                    // let node_e = {
    | LineClose(v: Take)                   // v };

  datatype Code =
    | Done
    | LetCall(i: nat, call: CallExpr, rest: Code)
    | LetUnit(i: nat, rest: Code)
    | LetIf(k: nat, cond: Ref, thn: Code, thnVal: Take, els: ElseArm, rest: Code)
    | LetBlock(e: nat, body: Code, value: Take, rest: Code)

  datatype ElseArm = UnitArm | CodeArm(code: Code, value: Take)

  // ----- lines and their reading -----

  /** The lines of `c`, written before `tail`. */
  function Render(c: Code, tail: seq<Line>): seq<Line>
    decreases c
  {
    match c
    case Done => tail
    case LetCall(i, call, rest) => [LineCall(i, call)] + Render(rest, tail)
    case LetUnit(i, rest) => [LineUnit(i)] + Render(rest, tail)
    case LetBlock(e, body, v, rest) => [LineBlock(e)] + Render(body, [LineClose(v)] + Render(rest, tail))
    case LetIf(k, cond, thn, tv, els, rest) =>
      [LineIf(k, cond)] + Render(thn,
        match els
        case UnitArm => [LineElseUnit(tv)] + Render(rest, tail)
        case CodeArm(code, v) => [LineElse(tv)] + Render(code, [LineClose(v)] + Render(rest, tail)))
  }

  predicate Closer(l: Line) {
    l.LineElse? || l.LineElseUnit? || l.LineClose?
  }

  datatype Reading = Malformed | Parsed(code: Code, rest: seq<Line>)

  /** Statements up to the first unmatched closing line. */
  function ReadCode(ls: seq<Line>): (r: Reading)
    ensures r.Parsed? ==> |r.rest| <= |ls|
    decreases |ls|
  {
    if ls == [] || Closer(ls[0]) then Parsed(Done, ls) else
    match ls[0]
    case LineCall(i, call) =>
      (match ReadCode(ls[1..])
       case Malformed => Malformed
       case Parsed(rest, out) => Parsed(LetCall(i, call, rest), out))
    case LineUnit(i) =>
      (match ReadCode(ls[1..])
       case Malformed => Malformed
       case Parsed(rest, out) => Parsed(LetUnit(i, rest), out))
    case LineBlock(e) =>
      var body := ReadCode(ls[1..]);
      if body.Malformed? || body.rest == [] || !body.rest[0].LineClose? then Malformed else
      (match ReadCode(body.rest[1..])
       case Malformed => Malformed
       case Parsed(rest, out) => Parsed(LetBlock(e, body.code, body.rest[0].v, rest), out))
    case LineIf(k, cond) =>
      var thn := ReadCode(ls[1..]);
      if thn.Malformed? || thn.rest == [] then Malformed
      else if thn.rest[0].LineElseUnit? then
        (match ReadCode(thn.rest[1..])
         case Malformed => Malformed
         case Parsed(rest, out) => Parsed(LetIf(k, cond, thn.code, thn.rest[0].v, UnitArm, rest), out))
      else if thn.rest[0].LineElse? then
        var els := ReadCode(thn.rest[1..]);
        if els.Malformed? || els.rest == [] || !els.rest[0].LineClose? then Malformed else
        (match ReadCode(els.rest[1..])
         case Malformed => Malformed
         case Parsed(rest, out) =>
           Parsed(LetIf(k, cond, thn.code, thn.rest[0].v, CodeArm(els.code, els.rest[0].v), rest), out))
      else Malformed
  }

  predicate Stops(tail: seq<Line>) {
    tail == [] || Closer(tail[0])
  }

  /** Rendered code has exactly one reading. */
  lemma {:induction false} ReadRender(c: Code, tail: seq<Line>)
    requires Stops(tail)
    ensures ReadCode(Render(c, tail)) == Parsed(c, tail)
    decreases c
  {
    match c
    case Done =>
    case LetCall(i, call, rest) =>
      ReadRender(rest, tail);
      ReadLetCall(i, call, rest, Render(rest, tail), tail);
    case LetUnit(i, rest) =>
      ReadRender(rest, tail);
      ReadLetUnit(i, rest, Render(rest, tail), tail);
    case LetBlock(e, body, v, rest) =>
      var after := [LineClose(v)] + Render(rest, tail);
      ReadRender(body, after);
      ReadRender(rest, tail);
      ReadLetBlock(e, body, Render(body, after), v, rest, Render(rest, tail), tail);
    case LetIf(k, cond, thn, tv, UnitArm, rest) =>
      var after := [LineElseUnit(tv)] + Render(rest, tail);
      ReadRender(thn, after);
      ReadRender(rest, tail);
      ReadLetIf1(k, cond, thn, Render(thn, after), tv, rest, Render(rest, tail), tail);
    case LetIf(k, cond, thn, tv, CodeArm(code, v), rest) =>
      var after2 := [LineClose(v)] + Render(rest, tail);
      var after := [LineElse(tv)] + Render(code, after2);
      ReadRender(thn, after);
      ReadRender(code, after2);
      ReadRender(rest, tail);
      ReadLetIf2(k, cond, thn, Render(thn, after), tv, code, Render(code, after2), v, rest, Render(rest, tail), tail);
  }

  lemma AfterFirst(l: Line, ls: seq<Line>)
    ensures ([l] + ls)[0] == l && ([l] + ls)[1..] == ls
  {
  }

  lemma ReadLetCall(i: nat, call: CallExpr, rest: Code, ls: seq<Line>, tail: seq<Line>)
    requires ReadCode(ls) == Parsed(rest, tail)
    ensures ReadCode([LineCall(i, call)] + ls) == Parsed(LetCall(i, call, rest), tail)
  {
    AfterFirst(LineCall(i, call), ls);
  }

  lemma ReadLetUnit(i: nat, rest: Code, ls: seq<Line>, tail: seq<Line>)
    requires ReadCode(ls) == Parsed(rest, tail)
    ensures ReadCode([LineUnit(i)] + ls) == Parsed(LetUnit(i, rest), tail)
  {
    AfterFirst(LineUnit(i), ls);
  }

  lemma ReadLetBlock(e: nat, body: Code, ls1: seq<Line>, v: Take, rest: Code, ls2: seq<Line>, tail: seq<Line>)
    requires ReadCode(ls1) == Parsed(body, [LineClose(v)] + ls2) && ReadCode(ls2) == Parsed(rest, tail)
    ensures ReadCode([LineBlock(e)] + ls1) == Parsed(LetBlock(e, body, v, rest), tail)
  {
    AfterFirst(LineBlock(e), ls1);
    AfterFirst(LineClose(v), ls2);
  }

  lemma ReadLetIf1(k: nat, cond: Ref, thn: Code, ls1: seq<Line>, tv: Take, rest: Code, ls2: seq<Line>, tail: seq<Line>)
    requires ReadCode(ls1) == Parsed(thn, [LineElseUnit(tv)] + ls2) && ReadCode(ls2) == Parsed(rest, tail)
    ensures ReadCode([LineIf(k, cond)] + ls1) == Parsed(LetIf(k, cond, thn, tv, UnitArm, rest), tail)
  {
    AfterFirst(LineIf(k, cond), ls1);
    AfterFirst(LineElseUnit(tv), ls2);
  }

  lemma ReadLetIf2(k: nat, cond: Ref, thn: Code, ls1: seq<Line>, tv: Take, els: Code, ls2: seq<Line>, ev: Take,
                   rest: Code, ls3: seq<Line>, tail: seq<Line>)
    requires ReadCode(ls1) == Parsed(thn, [LineElse(tv)] + ls2)
    requires ReadCode(ls2) == Parsed(els, [LineClose(ev)] + ls3) && ReadCode(ls3) == Parsed(rest, tail)
    ensures ReadCode([LineIf(k, cond)] + ls1) == Parsed(LetIf(k, cond, thn, tv, CodeArm(els, ev), rest), tail)
  {
    AfterFirst(LineIf(k, cond), ls1);
    AfterFirst(LineElse(tv), ls2);
    AfterFirst(LineClose(ev), ls3);
  }

  // ----- running -----

  /** `env` holds the variables in scope, `moved` those whose value has been moved out. */
  datatype Frame = Frame(env: map<Ref, Value>, moved: set<Ref>, w: World)

  /** `Stuck` is a use of a variable that is not in scope or was moved out. */
  datatype Res = Going(f: Frame) | Halted(h: Halt, w: World) | Stuck

  datatype ValueRes = Got(v: Value, moved: set<Ref>, w: World) | VHalted(h: Halt, w: World) | VStuck

  predicate Usable(f: Frame, r: Ref) {
    r in f.env && r !in f.moved
  }

  function MovedBy(t: Take): set<Ref> {
    if t.moved then {t.r} else {}
  }

  function EvalArgs(args: seq<ArgExpr>, f: Frame): Option<(seq<Arg>, set<Ref>)>
    decreases |args|
  {
    if args == [] then Some(([], f.moved)) else
    match args[0]
    case Path(p) =>
      var rest := EvalArgs(args[1..], f);
      if rest.None? then None else Some(([FnArg(p)] + rest.value.0, rest.value.1))
    case Borrow(r) =>
      if !Usable(f, r) then None else
      var rest := EvalArgs(args[1..], f);
      if rest.None? then None else Some(([DataArg(f.env[r])] + rest.value.0, rest.value.1))
    case Own(t) =>
      if !Usable(f, t.r) then None else
      var rest := EvalArgs(args[1..], f.(moved := f.moved + MovedBy(t)));
      if rest.None? then None else Some(([DataArg(f.env[t.r])] + rest.value.0, rest.value.1))
  }

  predicate AllUsable(f: Frame, rs: seq<Ref>) {
    forall r :: r in rs ==> Usable(f, r)
  }

  function Values(f: Frame, rs: seq<Ref>): seq<Value>
    requires AllUsable(f, rs)
  {
    if rs == [] then [] else assert Usable(f, rs[0]); [f.env[rs[0]]] + Values(f, rs[1..])
  }

  function EvalCall(m: Machine, call: CallExpr, f: Frame): ValueRes {
    if !call.callee.foreign && !AllUsable(f, call.guards) then VStuck else
    var pre := if call.callee.foreign then None else GuardPre(f.w, call.effectful, Values(f, call.guards));
    if pre.Some? then Got(pre.value, f.moved, f.w) else
    var args := EvalArgs(call.args, f);
    if args.None? then VStuck else
    var r := if call.callee.foreign then ForeignCall(m, f.w, call.callee.path, args.value.0)
             else GuardRun(m, f.w, call.callee.name, call.effectful, args.value.0);
    match r
    case Yields(v, w) => Got(v, args.value.1, w)
    case Halts(h, w) => VHalted(h, w)
  }

  function EvalTake(t: Take, f: Frame): ValueRes {
    if Usable(f, t.r) then Got(f.env[t.r], f.moved + MovedBy(t), f.w) else VStuck
  }

  function Eval(m: Machine, c: Code, f: Frame): Res
    decreases c, 0
  {
    match c
    case Done => Going(f)
    case LetCall(i, call, rest) => Bind(m, i, EvalCall(m, call, f), f, rest)
    case LetUnit(i, rest) => Bind(m, i, Got(Unit, f.moved, f.w), f, rest)
    case LetBlock(e, body, value, rest) => Bind(m, e, EvalBlock(m, body, value, f), f, rest)
    case LetIf(k, cond, thn, tv, els, rest) =>
      if !Usable(f, cond) then Stuck else
      var v := f.env[cond];
      Bind(m, k,
           if Sticky(v) then Got(v, f.moved, f.w)
           else if Truthy(v) then EvalBlock(m, thn, tv, f)
           else match els
                case UnitArm => Got(Unit, f.moved, f.w)
                case CodeArm(code, ev) => EvalBlock(m, code, ev, f),
           f, rest)
  }

  /** A block's own bindings end with it. */
  function EvalBlock(m: Machine, body: Code, value: Take, f: Frame): ValueRes
    decreases body, 1
  {
    match Eval(m, body, f)
    case Going(f1) => EvalTake(value, f1)
    case Halted(h, w) => VHalted(h, w)
    case Stuck => VStuck
  }

  function Bind(m: Machine, i: nat, r: ValueRes, f: Frame, rest: Code): Res
    decreases rest, 1
  {
    match r
    case Got(v, moved, w) => Eval(m, rest, Frame(f.env[NodeRef(i) := v], moved, w))
    case VHalted(h, w) => Halted(h, w)
    case VStuck => Stuck
  }

  // ----- what the compiler checks -----

  /** The variables in scope and those that may have been moved out on some path. */
  datatype Scope = Scope(vars: set<Ref>, moved: set<Ref>)

  predicate Free(s: Scope, r: Ref) {
    r in s.vars && r !in s.moved
  }

  function CheckTake(t: Take, s: Scope): Option<set<Ref>> {
    if Free(s, t.r) then Some(s.moved + MovedBy(t)) else None
  }

  function CheckArgs(args: seq<ArgExpr>, s: Scope): Option<set<Ref>>
    decreases |args|
  {
    if args == [] then Some(s.moved) else
    match args[0]
    case Path(_) => CheckArgs(args[1..], s)
    case Borrow(r) => if Free(s, r) then CheckArgs(args[1..], s) else None
    case Own(t) => if Free(s, t.r) then CheckArgs(args[1..], s.(moved := s.moved + MovedBy(t))) else None
  }

  function CheckCall(call: CallExpr, s: Scope): Option<set<Ref>> {
    if !call.callee.foreign && exists r :: r in call.guards && !Free(s, r) then None
    else CheckArgs(call.args, s)
  }

  function Check(c: Code, s: Scope): Option<Scope>
    decreases c, 0
  {
    match c
    case Done => Some(s)
    case LetCall(i, call, rest) => CheckBind(i, CheckCall(call, s), s, rest)
    case LetUnit(i, rest) => CheckBind(i, Some(s.moved), s, rest)
    case LetBlock(e, body, value, rest) => CheckBind(e, CheckBlock(body, value, s), s, rest)
    case LetIf(k, cond, thn, tv, els, rest) =>
      if !Free(s, cond) then None else
      var m1 := CheckBlock(thn, tv, s);
      var m2 := match els
                case UnitArm => Some(s.moved)
                case CodeArm(code, ev) => CheckBlock(code, ev, s);
      if m1.None? || m2.None? then None else CheckBind(k, Some(m1.value + m2.value), s, rest)
  }

  function CheckBlock(body: Code, value: Take, s: Scope): Option<set<Ref>>
    decreases body, 1
  {
    var inner := Check(body, s);
    if inner.None? then None else CheckTake(value, inner.value)
  }

  function CheckBind(i: nat, moved: Option<set<Ref>>, s: Scope, rest: Code): Option<Scope>
    decreases rest, 1
  {
    if moved.None? then None else Check(rest, Scope(s.vars + {NodeRef(i)}, moved.value))
  }

  // ----- checked code does not get stuck -----

  /** A frame the check's view of the scope is safe for. */
  ghost predicate Covers(s: Scope, f: Frame) {
    s.vars <= f.env.Keys && f.moved <= s.moved
  }

  lemma {:induction false} ArgsSound(args: seq<ArgExpr>, s: Scope, f: Frame)
    requires Covers(s, f) && CheckArgs(args, s).Some?
    ensures EvalArgs(args, f).Some? && EvalArgs(args, f).value.1 <= CheckArgs(args, s).value
    ensures s.moved <= CheckArgs(args, s).value
    decreases |args|
  {
    if args != [] {
      match args[0]
      case Path(_) => ArgsSound(args[1..], s, f);
      case Borrow(_) => ArgsSound(args[1..], s, f);
      case Own(t) => ArgsSound(args[1..], s.(moved := s.moved + MovedBy(t)), f.(moved := f.moved + MovedBy(t)));
    }
  }

  ghost predicate SafeValue(r: ValueRes, moved: set<Ref>) {
    !r.VStuck? && (r.Got? ==> r.moved <= moved)
  }

  lemma CallSound(m: Machine, call: CallExpr, s: Scope, f: Frame)
    requires Covers(s, f) && CheckCall(call, s).Some?
    ensures SafeValue(EvalCall(m, call, f), CheckCall(call, s).value)
  {
    ArgsSound(call.args, s, f);
  }

  /** Code the borrow checker accepts never uses a variable out of scope or after its move, on any run. */
  lemma {:induction false} CheckSound(m: Machine, c: Code, s: Scope, f: Frame)
    requires Covers(s, f) && Check(c, s).Some?
    ensures !Eval(m, c, f).Stuck?
    ensures Eval(m, c, f).Going? ==> Covers(Check(c, s).value, Eval(m, c, f).f)
    decreases c, 0
  {
    match c
    case Done =>
    case LetCall(i, call, rest) =>
      CallSound(m, call, s, f);
      BindSound(m, i, EvalCall(m, call, f), CheckCall(call, s).value, s, f, rest);
    case LetUnit(i, rest) =>
      BindSound(m, i, Got(Unit, f.moved, f.w), s.moved, s, f, rest);
    case LetBlock(e, body, value, rest) =>
      BlockSound(m, body, value, s, f);
      BindSound(m, e, EvalBlock(m, body, value, f), CheckBlock(body, value, s).value, s, f, rest);
    case LetIf(k, cond, thn, tv, els, rest) =>
      BlockSound(m, thn, tv, s, f);
      CheckGrows(thn, tv, s);
      var m1 := CheckBlock(thn, tv, s).value;
      var v := f.env[cond];
      match els {
        case UnitArm =>
          BindSound(m, k, if Sticky(v) then Got(v, f.moved, f.w)
                          else if Truthy(v) then EvalBlock(m, thn, tv, f)
                          else Got(Unit, f.moved, f.w), m1 + s.moved, s, f, rest);
        case CodeArm(code, ev) =>
          BlockSound(m, code, ev, s, f);
          CheckGrows(code, ev, s);
          BindSound(m, k, if Sticky(v) then Got(v, f.moved, f.w)
                          else if Truthy(v) then EvalBlock(m, thn, tv, f)
                          else EvalBlock(m, code, ev, f), m1 + CheckBlock(code, ev, s).value, s, f, rest);
      }
  }

  lemma {:induction false} BlockSound(m: Machine, body: Code, value: Take, s: Scope, f: Frame)
    requires Covers(s, f) && CheckBlock(body, value, s).Some?
    ensures SafeValue(EvalBlock(m, body, value, f), CheckBlock(body, value, s).value)
    decreases body, 1
  {
    CheckSound(m, body, s, f);
  }

  lemma {:induction false} BindSound(m: Machine, i: nat, r: ValueRes, moved: set<Ref>, s: Scope, f: Frame, rest: Code)
    requires Covers(s, f) && SafeValue(r, moved) && CheckBind(i, Some(moved), s, rest).Some?
    ensures !Bind(m, i, r, f, rest).Stuck?
    ensures Bind(m, i, r, f, rest).Going? ==>
      Covers(CheckBind(i, Some(moved), s, rest).value, Bind(m, i, r, f, rest).f)
    decreases rest, 1
  {
    if r.Got? {
      CheckSound(m, rest, Scope(s.vars + {NodeRef(i)}, moved), Frame(f.env[NodeRef(i) := r.v], r.moved, r.w));
    }
  }

  lemma {:induction false} ArgsGrow(args: seq<ArgExpr>, s: Scope)
    requires CheckArgs(args, s).Some?
    ensures s.moved <= CheckArgs(args, s).value
    decreases |args|
  {
    if args != [] {
      match args[0]
      case Path(_) => ArgsGrow(args[1..], s);
      case Borrow(_) => ArgsGrow(args[1..], s);
      case Own(t) => ArgsGrow(args[1..], s.(moved := s.moved + MovedBy(t)));
    }
  }

  /** Nothing moved is ever forgotten. */
  lemma {:induction false} ScopeGrows(c: Code, s: Scope)
    requires Check(c, s).Some?
    ensures s.moved <= Check(c, s).value.moved && s.vars <= Check(c, s).value.vars
    decreases c, 0
  {
    match c
    case Done =>
    case LetCall(i, call, rest) =>
      ArgsGrow(call.args, s);
      ScopeGrows(rest, Scope(s.vars + {NodeRef(i)}, CheckCall(call, s).value));
    case LetUnit(i, rest) =>
      ScopeGrows(rest, Scope(s.vars + {NodeRef(i)}, s.moved));
    case LetBlock(e, body, value, rest) =>
      CheckGrows(body, value, s);
      ScopeGrows(rest, Scope(s.vars + {NodeRef(e)}, CheckBlock(body, value, s).value));
    case LetIf(k, cond, thn, tv, els, rest) =>
      CheckGrows(thn, tv, s);
      var m2 := match els
                case UnitArm => Some(s.moved)
                case CodeArm(code, ev) => CheckBlock(code, ev, s);
      ScopeGrows(rest, Scope(s.vars + {NodeRef(k)}, CheckBlock(thn, tv, s).value + m2.value));
  }

  lemma {:induction false} CheckGrows(body: Code, value: Take, s: Scope)
    requires CheckBlock(body, value, s).Some?
    ensures s.moved <= CheckBlock(body, value, s).value
    decreases body, 1
  {
    ScopeGrows(body, s);
  }
}
