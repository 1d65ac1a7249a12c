/** Whole sequences of operations on the store that the table of local maps stands for. */
module HandleRuns {
  import opened CoreIr
  import opened HandleMap

  datatype Op =
    | OpNew
    | OpClone(t: nat)
    | OpDrop(t: nat)
    | OpPut(t: nat, k: string, v: string)
    | OpFreeze(t: nat)

  datatype World = World(store: Store, nextToken: nat, nextId: nat)

  /** Only live handles are used. */
  predicate Able(w: World, op: Op) {
    op.OpNew? || (op.t in w.store.holds && w.store.holds[op.t] in w.store.cells)
  }

  /** The operations as the table's methods state them; a frozen map refuses puts and freezes. */
  ghost function Next(w: World, op: Op): World
    requires Able(w, op)
  {
    var s := w.store;
    match op
    case OpNew => World(Created(s, w.nextToken, w.nextId), w.nextToken + 1, w.nextId + 1)
    case OpClone(t) => World(s.(holds := s.holds[w.nextToken := s.holds[t]]), w.nextToken + 1, w.nextId)
    case OpDrop(t) => w.(store := Dropped(s, t))
    case OpPut(t, k, v) =>
      var id := s.holds[t];
      if s.cells[id].Open? then w.(store := Updated(s, id, Open(s.cells[id].m[k := v]))) else w
    case OpFreeze(t) => w.(store := Updated(s, s.holds[t], Frozen))
  }

  ghost predicate Sound(w: World) {
    && Owned(w.store)
    && (forall t :: t in w.store.holds ==> t < w.nextToken)
    && (forall id :: id in w.store.cells ==> id < w.nextId)
  }

  lemma NextSound(w: World, op: Op)
    requires Sound(w) && Able(w, op)
    ensures Sound(Next(w, op))
  {
    var s, after := w.store, Next(w, op).store;
    forall id
      ensures id in after.cells <==> Copies(after.holds, id) != {}
    {
      match op
      case OpNew => AddedCopy(s.holds, w.nextToken, w.nextId, id);
      case OpClone(t) => AddedCopy(s.holds, w.nextToken, s.holds[t], id); assert t in Copies(s.holds, s.holds[t]);
      case OpDrop(t) => RemovedCopy(s.holds, t, id);
      case _ =>
    }
  }

  ghost predicate Possible(w: World, ops: seq<Op>)
    decreases |ops|
  {
    ops == [] || (Able(w, ops[0]) && Possible(Next(w, ops[0]), ops[1..]))
  }

  ghost function Run(w: World, ops: seq<Op>): World
    requires Possible(w, ops)
    decreases |ops|
  {
    if ops == [] then w else Run(Next(w, ops[0]), ops[1..])
  }

  /** The puts made through handles of map `id`, in order. */
  ghost function Puts(w: World, ops: seq<Op>, id: nat): seq<(string, string)>
    requires Possible(w, ops)
    decreases |ops|
  {
    if ops == [] then [] else
    var rest := Puts(Next(w, ops[0]), ops[1..], id);
    if ops[0].OpPut? && w.store.holds[ops[0].t] == id then [(ops[0].k, ops[0].v)] + rest else rest
  }

  function Play(m: Map, puts: seq<(string, string)>): Map
    decreases |puts|
  {
    if puts == [] then m else Play(m[puts[0].0 := puts[0].1], puts[1..])
  }

  /** A key that is not put keeps what it had. */
  lemma {:induction false} NotPlayed(m: Map, puts: seq<(string, string)>, k: string)
    requires forall i :: 0 <= i < |puts| ==> puts[i].0 != k
    ensures k in Play(m, puts) <==> k in m
    ensures k in m ==> Play(m, puts)[k] == m[k]
    decreases |puts|
  {
    if puts != [] {
      NotPlayed(m[puts[0].0 := puts[0].1], puts[1..], k);
    }
  }

  /** A played map has under a key what was put there last. */
  lemma {:induction false} PlayedLast(m: Map, puts: seq<(string, string)>, i: nat, k: string)
    requires i < |puts| && puts[i].0 == k && forall j :: i < j < |puts| ==> puts[j].0 != k
    ensures k in Play(m, puts) && Play(m, puts)[k] == puts[i].1
    decreases |puts|
  {
    var next := m[puts[0].0 := puts[0].1];
    if i > 0 {
      PlayedLast(next, puts[1..], i - 1, k);
    } else {
      NotPlayed(next, puts[1..], k);
    }
  }

  /** A map that has gone, or a name not yet used, never comes back under the same identity. */
  lemma {:induction false} NeverReused(w: World, ops: seq<Op>, id: nat)
    requires Sound(w) && Possible(w, ops) && id < w.nextId && id !in w.store.cells
    ensures id !in Run(w, ops).store.cells
    decreases |ops|
  {
    if ops != [] {
      NextSound(w, ops[0]);
      NeverReused(Next(w, ops[0]), ops[1..], id);
    }
  }

  /** One step leaves every map alone but the one it is applied to, and lets none reappear. */
  lemma StepTouchesOne(w: World, op: Op, id: nat)
    requires Sound(w) && Able(w, op) && id in w.store.cells
    ensures var after := Next(w, op).store.cells;
      id in after ==>
        if op.OpPut? && w.store.holds[op.t] == id && w.store.cells[id].Open?
        then after[id] == Open(w.store.cells[id].m[op.k := op.v])
        else after[id] == w.store.cells[id] || (op.OpFreeze? && w.store.holds[op.t] == id && after[id] == Frozen)
  {
  }

  /** A frozen map stays frozen for as long as anybody holds it. */
  lemma {:induction false} FrozenForever(w: World, ops: seq<Op>, id: nat)
    requires Sound(w) && Possible(w, ops) && id in w.store.cells && w.store.cells[id].Frozen?
    ensures id in Run(w, ops).store.cells ==> Run(w, ops).store.cells[id].Frozen?
    decreases |ops|
  {
    if ops != [] {
      NextSound(w, ops[0]);
      StepTouchesOne(w, ops[0], id);
      if id in Next(w, ops[0]).store.cells {
        FrozenForever(Next(w, ops[0]), ops[1..], id);
      } else {
        NeverReused(Next(w, ops[0]), ops[1..], id);
      }
    }
  }

  /** What a handle sees is what was put through handles of its own map, whatever happens to the others. */
  lemma {:induction false} SeesOwnPuts(w: World, ops: seq<Op>, id: nat)
    requires Sound(w) && Possible(w, ops) && id in w.store.cells && w.store.cells[id].Open?
    requires id in Run(w, ops).store.cells && Run(w, ops).store.cells[id].Open?
    ensures Run(w, ops).store.cells[id].m == Play(w.store.cells[id].m, Puts(w, ops, id))
    decreases |ops|
  {
    if ops != [] {
      var next := Next(w, ops[0]);
      NextSound(w, ops[0]);
      StepTouchesOne(w, ops[0], id);
      if id !in next.store.cells {
        NeverReused(next, ops[1..], id);
      } else if next.store.cells[id].Frozen? {
        FrozenForever(next, ops[1..], id);
      } else {
        SeesOwnPuts(next, ops[1..], id);
        if ops[0].OpPut? && w.store.holds[ops[0].t] == id {
          var rest := Puts(next, ops[1..], id);
          assert ([(ops[0].k, ops[0].v)] + rest)[1..] == rest;
        }
      }
    }
  }

  /** The map lives exactly as long as somebody holds it. */
  lemma {:induction false} LivesWhileHeld(w: World, ops: seq<Op>, id: nat)
    requires Sound(w) && Possible(w, ops)
    ensures id in Run(w, ops).store.cells <==>
      exists t :: t in Run(w, ops).store.holds && Run(w, ops).store.holds[t] == id
    decreases |ops|
  {
    if ops != [] {
      NextSound(w, ops[0]);
      LivesWhileHeld(Next(w, ops[0]), ops[1..], id);
    } else {
      var copies := Copies(w.store.holds, id);
      if copies != {} {
        var t :| t in copies;
      }
      if t :| t in w.store.holds && w.store.holds[t] == id {
        assert t in copies;
      }
    }
  }

  // ----- the table does just that -----

  function WorldOf(x: Image): World {
    World(x.store, x.nextToken, x.nextId)
  }

  /** The program has the handle of every live token, and no others. */
  ghost predicate Holding(table: Table, handles: map<nat, Handle>, next: nat)
    reads table
  {
    table.Valid() && handles == table.im.handles && next == table.im.nextToken
  }

  /** One operation on the table is one operation on the store. */
  method Perform(table: Table, op: Op, handles: map<nat, Handle>, next: nat)
      returns (after: map<nat, Handle>, made: nat)
    requires Holding(table, handles, next) && Able(WorldOf(table.im), op)
    modifies table
    ensures Holding(table, after, made) && WorldOf(table.im) == Next(old(WorldOf(table.im)), op)
  {
    after, made := handles, next;
    if !op.OpNew? {
      AbleHasHandle(table.im, op);
      HandleLeadsHome(table.im, op.t);
    }
    match op
    case OpNew =>
      var h := table.New();
      after, made := handles[next := h], next + 1;
    case OpClone(t) =>
      var h, _ := table.Clone(handles[t]);
      after, made := handles[next := h], next + 1;
    case OpDrop(t) =>
      table.Drop(handles[t], t);
      after := handles - {t};
    case OpPut(t, k, v) =>
      var _ := table.Put(handles[t], k, v);
    case OpFreeze(t) =>
      ghost var s := table.im.store;
      assert s.cells[s.holds[t]].Frozen? ==> s.cells[s.holds[t] := Frozen] == s.cells;
      var _ := table.Freeze(handles[t]);
  }

  lemma AbleHasHandle(x: Good, op: Op)
    requires Able(WorldOf(x), op) && !op.OpNew?
    ensures op.t in x.handles
  {
  }

  /** Any sequence of operations on the table is that sequence on the store. */
  method PerformAll(table: Table, ops: seq<Op>, handles: map<nat, Handle>, next: nat)
    returns (after: map<nat, Handle>, made: nat)
    requires Holding(table, handles, next) && Possible(WorldOf(table.im), ops)
    modifies table
    ensures Holding(table, after, made) && WorldOf(table.im) == Run(old(WorldOf(table.im)), ops)
  {
    after, made := handles, next;
    assert ops[0..] == ops;
    for i := 0 to |ops|
      invariant Holding(table, after, made) && Possible(WorldOf(table.im), ops[i..])
      invariant Run(WorldOf(table.im), ops[i..]) == Run(old(WorldOf(table.im)), ops)
    {
      assert ops[i..][0] == ops[i] && ops[i..][1..] == ops[i + 1..];
      after, made := Perform(table, ops[i], after, made);
    }
  }

  lemma {:induction false} RunAppends(w: World, first: seq<Op>, later: seq<Op>)
    requires Possible(w, first + later)
    ensures Possible(w, first) && Possible(Run(w, first), later) && Run(w, first + later) == Run(Run(w, first), later)
    decreases |first|
  {
    if first == [] {
      assert first + later == later;
    } else {
      assert (first + later)[0] == first[0] && (first + later)[1..] == first[1..] + later;
      RunAppends(Next(w, first[0]), first[1..], later);
    }
  }

  lemma {:induction false} RunSound(w: World, ops: seq<Op>)
    requires Sound(w) && Possible(w, ops)
    ensures Sound(Run(w, ops))
    decreases |ops|
  {
    if ops != [] {
      NextSound(w, ops[0]);
      RunSound(Next(w, ops[0]), ops[1..]);
    }
  }

  /** Once a handle of a map was frozen, every handle of that map is dead, however long the run goes on. */
  lemma FreezeIsFinal(w: World, first: seq<Op>, t: nat, later: seq<Op>, u: nat)
    requires Sound(w) && Possible(w, first + ([OpFreeze(t)] + later)) && Possible(w, first)
    requires var end := Run(w, first + ([OpFreeze(t)] + later)).store; var before := Run(w, first).store;
      u in end.holds && t in before.holds && end.holds[u] == before.holds[t]
    ensures var end := Run(w, first + ([OpFreeze(t)] + later)).store;
      end.holds[u] in end.cells && end.cells[end.holds[u]].Frozen?
  {
    var now := Run(w, first);
    RunAppends(w, first, [OpFreeze(t)] + later);
    assert ([OpFreeze(t)] + later)[1..] == later;
    RunSound(w, first);
    NextSound(now, OpFreeze(t));
    FrozenForever(Next(now, OpFreeze(t)), later, now.store.holds[t]);
    LivesWhileHeld(w, first + ([OpFreeze(t)] + later), now.store.holds[t]);
  }

  const NOTHING := World(Store(map[], map[]), 0, 0)

  /** A map born on the way holds what was put through its handles since. */
  lemma {:induction false} HoldsItsPuts(w: World, ops: seq<Op>, id: nat)
    requires Sound(w) && Possible(w, ops) && id >= w.nextId
    requires id in Run(w, ops).store.cells && Run(w, ops).store.cells[id].Open?
    ensures Run(w, ops).store.cells[id].m == Play(map[], Puts(w, ops, id))
    decreases |ops|
  {
    NextSound(w, ops[0]);
    var next := Next(w, ops[0]);
    if ops[0].OpNew? && w.nextId == id {
      SeesOwnPuts(next, ops[1..], id);
    } else {
      HoldsItsPuts(next, ops[1..], id);
      if ops[0].OpPut? {
        assert w.store.holds[ops[0].t] < w.nextId;
      }
    }
  }

  lemma SessionHandle(x: Good, t: nat)
    requires t in x.store.holds
    ensures t in x.handles && x.store.holds[t] in x.store.cells && MapOf(x, x.handles[t]) == Some(x.store.holds[t])
  {
    assert t in x.handles;
    HandleLeadsHome(x, t);
  }

  /**
   * A whole life of the table: after any operations, `Get` through a live handle answers with what was put through
   * handles of the same map and with nothing else, and refuses once that map is frozen.
   */
  method Session(ops: seq<Op>, t: nat, k: string) returns (r: Option<Option<string>>)
    requires Possible(NOTHING, ops) && t in Run(NOTHING, ops).store.holds
    ensures var w := Run(NOTHING, ops); var id := w.store.holds[t];
      && id in w.store.cells
      && (w.store.cells[id].Frozen? ==> r == None)
      && (w.store.cells[id].Open? ==>
          var m := Play(map[], Puts(NOTHING, ops, id)); r == Some(if k in m then Some(m[k]) else None))
  {
    var table := new Table();
    var handles, _ := PerformAll(table, ops, map[], 0);
    SessionHandle(table.im, t);
    ghost var id := table.im.store.holds[t];
    if table.im.store.cells[id].Open? {
      HoldsItsPuts(NOTHING, ops, id);
    }
    r := table.Get(handles[t], k);
  }

  /** The frozen map a freeze returns is what was put through handles of the map; a map is frozen once. */
  method FreezeSession(ops: seq<Op>, t: nat) returns (r: Option<Map>)
    requires Possible(NOTHING, ops) && t in Run(NOTHING, ops).store.holds
    ensures var w := Run(NOTHING, ops); var id := w.store.holds[t];
      && id in w.store.cells
      && (w.store.cells[id].Frozen? ==> r == None)
      && (w.store.cells[id].Open? ==> r == Some(Play(map[], Puts(NOTHING, ops, id))))
  {
    var table := new Table();
    var handles, _ := PerformAll(table, ops, map[], 0);
    SessionHandle(table.im, t);
    ghost var id := table.im.store.holds[t];
    if table.im.store.cells[id].Open? {
      HoldsItsPuts(NOTHING, ops, id);
    }
    r := table.Freeze(handles[t]);
  }
}
