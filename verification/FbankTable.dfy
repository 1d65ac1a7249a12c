/** What every interleaving keeps true of the bank's table. */
module FbankTable {
  import opened CoreIr
  import opened Ring
  import opened Fbank

  /** How many steps from its home a text's probe reaches slot `i`. */
  function StepsTo(b: Bank, d: Data, i: nat): (k: nat)
    requires i < Slots(b)
    ensures k < Slots(b) && At(b, d, k) == i
  {
    Steps(Slots(b), Home(b, d), i)
  }

  lemma OneStep(b: Bank, d: Data, k: nat)
    requires k < Slots(b)
    ensures At(b, d, k) < Slots(b) && StepsTo(b, d, At(b, d, k)) == k
  {
    StepsUnique(Slots(b), Home(b, d), k);
  }

  predicate Taken(s: State, i: nat) {
    Cell(s, i).Some?
  }

  predicate Holds(b: Bank, s: State, i: nat, d: Data) {
    Taken(s, i) && Content(b, s.mem, Cell(s, i).value) == d
  }

  predicate Other(b: Bank, s: State, i: nat, d: Data) {
    Taken(s, i) && Content(b, s.mem, Cell(s, i).value) != d
  }

  /** The first `k` slots of the probe for `d` hold other texts. */
  ghost predicate Passed(b: Bank, s: State, d: Data, k: nat) {
    forall j: nat {:trigger At(b, d, j)} :: j < k ==> Other(b, s, At(b, d, j), d)
  }

  /** Every slot from the text's home to where it stands is taken. */
  ghost predicate Chained(b: Bank, s: State, i: nat, d: Data)
    requires i < Slots(b)
  {
    forall j: nat {:trigger At(b, d, j)} :: j < StepsTo(b, d, i) ==> Taken(s, At(b, d, j))
  }

  ghost predicate SlotOk(b: Bank, s: State, i: nat)
    requires i < Slots(b)
  {
    Taken(s, i) ==> Filled(s.mem, Cell(s, i).value) && Chained(b, s, i, Content(b, s.mem, Cell(s, i).value))
  }

  /** No text stands in two slots. */
  predicate Distinct(b: Bank, s: State, i: nat, j: nat) {
    Taken(s, i) && Taken(s, j) && Content(b, s.mem, Cell(s, i).value) == Content(b, s.mem, Cell(s, j).value) ==> i == j
  }

  ghost predicate TableOk(b: Bank, s: State) {
    && |s.table| == Slots(b)
    && (forall i: nat :: i < Slots(b) ==> SlotOk(b, s, i))
    && (forall i: nat, j: nat :: Distinct(b, s, i, j))
  }

  /** Some slot holds the text of job `t`, under an ordinal no higher than a put's own. */
  predicate SettledAt(b: Bank, s: State, t: nat, i: nat)
    requires t < |b.jobs|
  {
    Holds(b, s, i, b.jobs[t].data) &&
    (b.jobs[t].kind.Put? ==> OrdOf(b, s.mem, Cell(s, i).value) <= b.jobs[t].kind.ordinal)
  }

  ghost predicate Settled(b: Bank, s: State, t: nat)
    requires t < |b.jobs|
  {
    exists i: nat :: SettledAt(b, s, t, i)
  }

  predicate Mine(m: Memory, id: nat, e: Entry) {
    id < |m.entries| && m.entries[id] == e
  }

  predicate Ready(m: Memory, id: nat, t: nat) {
    Filled(m, id) && Owner(m, id) == t
  }

  /** Entry `cur` has the text of put `t` under a higher ordinal. */
  predicate Beats(b: Bank, m: Memory, t: nat, cur: nat)
    requires t < |b.jobs|
  {
    b.jobs[t].kind.Put? && Filled(m, cur) && Content(b, m, cur) == b.jobs[t].data &&
      b.jobs[t].kind.ordinal < OrdOf(b, m, cur)
  }

  predicate AnswerOk(b: Bank, m: Memory, t: nat, r: int)
    requires t < |b.jobs|
  {
    if r >= 0 then Filled(m, r) && Content(b, m, r) == b.jobs[t].data
    else r == REFUSED && b.jobs[t].kind.Put?
  }

  ghost predicate PcOk(b: Bank, s: State, t: nat)
    requires t < |b.jobs| && t < |s.pcs|
  {
    var d := b.jobs[t].data;
    match s.pcs[t]
    case Probe(k) => k < Slots(b) && Passed(b, s, d, k)
    case Draw(k) => k < Slots(b) && Passed(b, s, d, k)
    case Room(id, k) => k < Slots(b) && Passed(b, s, d, k) && id < b.maxEntries &&
      Mine(s.mem, id, Entry(t, None, false))
    case Fill(id, at, k) =>
      && k < Slots(b) && Passed(b, s, d, k)
      && id < b.maxEntries && Mine(s.mem, id, Entry(t, Some(at), false)) && at + |d| <= b.maxBytes
    case Insert(id, k) => k < Slots(b) && Passed(b, s, d, k) && Ready(s.mem, id, t)
    case TakeEmpty(id, k) => k < Slots(b) && Passed(b, s, d, k) && Ready(s.mem, id, t)
    case Displace(id, k, cur) => k < Slots(b) && Passed(b, s, d, k) && Ready(s.mem, id, t) && Beats(b, s.mem, t, cur)
    case Done(r) =>
      r == FULL || (b.jobs[t].kind.Lookup? && r == ABSENT) || (Settled(b, s, t) && AnswerOk(b, s.mem, t, r))
  }

  ghost predicate Inv(b: Bank, s: State) {
    && |s.pcs| == |b.jobs|
    && MemOk(b, s.mem)
    && TableOk(b, s)
    && (forall t: nat :: t < |b.jobs| ==> PcOk(b, s, t))
  }

  // ----- an empty slot always remains -----

  /** The ids in the slots, when all are taken. */
  function Ids(table: seq<Option<nat>>): seq<nat>
    requires forall i :: 0 <= i < |table| ==> table[i].Some?
  {
    seq(|table|, i requires 0 <= i < |table| => table[i].value)
  }

  lemma EmptySlotRemains(b: Bank, s: State) returns (i: nat)
    requires MemOk(b, s.mem) && TableOk(b, s)
    ensures i < Slots(b) && !Taken(s, i)
  {
    if forall i: nat :: i < Slots(b) ==> Taken(s, i) {
      assert forall i :: 0 <= i < |s.table| ==> s.table[i].Some? by {
        forall i | 0 <= i < |s.table|
          ensures s.table[i].Some?
        {
          assert Taken(s, i);
        }
      }
      var ids := Ids(s.table);
      forall i, j | 0 <= i < j < |ids|
        ensures ids[i] != ids[j]
      {
        assert Taken(s, i) && Taken(s, j) && Distinct(b, s, i, j);
      }
      forall x | x in ids
        ensures x < b.maxEntries
      {
        var i :| 0 <= i < |ids| && ids[i] == x;
        assert SlotOk(b, s, i) && Taken(s, i) && EntryOk(b, s.mem, x);
      }
      Pigeonhole(ids, Below(b.maxEntries));
      assert false;
    }
    i :| i < Slots(b) && !Taken(s, i);
  }

  /** So no probe goes round the whole table. */
  lemma ProbeIsShort(b: Bank, s: State, d: Data, k: nat)
    requires MemOk(b, s.mem) && TableOk(b, s) && Passed(b, s, d, k)
    ensures k < Slots(b)
  {
    var i := EmptySlotRemains(b, s);
    var j := StepsTo(b, d, i);
    assert j < k ==> Other(b, s, At(b, d, j), d);
  }

  // ----- a slot's text never changes and its ordinal only falls -----

  predicate SlotGrows(b: Bank, s: State, w: State, i: nat) {
    Taken(s, i) ==>
      && Taken(w, i)
      && Content(b, w.mem, Cell(w, i).value) == Content(b, s.mem, Cell(s, i).value)
      && (Cell(w, i) == Cell(s, i) || OrdOf(b, w.mem, Cell(w, i).value) < OrdOf(b, s.mem, Cell(s, i).value))
      && OrdOf(b, w.mem, Cell(w, i).value) <= OrdOf(b, s.mem, Cell(s, i).value)
  }

  ghost predicate Grows(b: Bank, s: State, w: State) {
    forall i: nat :: SlotGrows(b, s, w, i)
  }

  lemma PassedGrows(b: Bank, s: State, w: State, d: Data, k: nat)
    requires Grows(b, s, w) && Passed(b, s, d, k)
    ensures Passed(b, w, d, k)
  {
    forall j: nat {:trigger At(b, d, j)} | j < k
      ensures Other(b, w, At(b, d, j), d)
    {
      assert Other(b, s, At(b, d, j), d) && SlotGrows(b, s, w, At(b, d, j));
    }
  }

  lemma SettledGrows(b: Bank, s: State, w: State, t: nat)
    requires t < |b.jobs| && Grows(b, s, w) && Settled(b, s, t)
    ensures Settled(b, w, t)
  {
    var i: nat :| SettledAt(b, s, t, i);
    assert SlotGrows(b, s, w, i);
    assert SettledAt(b, w, t, i);
  }

  lemma OthersKeep(b: Bank, s: State, w: State, t: nat, u: nat)
    requires u < |b.jobs| && u < |s.pcs| == |w.pcs| && u != t && w.pcs[u] == s.pcs[u]
    requires Grows(b, s, w) && Extends(s.mem, w.mem, t) && PcOk(b, s, u)
    ensures PcOk(b, w, u)
  {
    var d := b.jobs[u].data;
    match s.pcs[u]
    case Probe(k) => PassedGrows(b, s, w, d, k);
    case Draw(k) => PassedGrows(b, s, w, d, k);
    case Room(id, k) => PassedGrows(b, s, w, d, k); SameJobs(b, s.mem, w.mem, t, id);
    case Fill(id, at, k) => PassedGrows(b, s, w, d, k); SameJobs(b, s.mem, w.mem, t, id);
    case Insert(id, k) => PassedGrows(b, s, w, d, k); SameJobs(b, s.mem, w.mem, t, id);
    case TakeEmpty(id, k) => PassedGrows(b, s, w, d, k); SameJobs(b, s.mem, w.mem, t, id);
    case Displace(id, k, cur) =>
      PassedGrows(b, s, w, d, k);
      SameJobs(b, s.mem, w.mem, t, id);
      SameJobs(b, s.mem, w.mem, t, cur);
    case Done(r) =>
      if r != FULL && !(b.jobs[u].kind.Lookup? && r == ABSENT) {
        SettledGrows(b, s, w, t := u);
        if r >= 0 {
          SameJobs(b, s.mem, w.mem, t, r);
        }
      }
  }

  lemma Assemble(b: Bank, s: State, w: State, t: nat)
    requires Inv(b, s) && t < |b.jobs| == |w.pcs| && (forall u: nat :: u < |b.jobs| && u != t ==> w.pcs[u] == s.pcs[u])
    requires MemOk(b, w.mem) && TableOk(b, w) && Extends(s.mem, w.mem, t) && Grows(b, s, w) && PcOk(b, w, t)
    ensures Inv(b, w)
  {
    forall u: nat | u < |b.jobs|
      ensures PcOk(b, w, u)
    {
      if u != t {
        assert PcOk(b, s, u);
        OthersKeep(b, s, w, t, u);
      }
    }
  }

  /** Steps that leave the table alone. */
  lemma TableFramed(b: Bank, s: State, w: State, t: nat)
    requires TableOk(b, s) && w.table == s.table && Extends(s.mem, w.mem, t)
    ensures TableOk(b, w) && Grows(b, s, w)
  {
    forall i: nat
      ensures SlotGrows(b, s, w, i)
      ensures Taken(s, i) ==> Filled(s.mem, Cell(s, i).value) && Filled(w.mem, Cell(w, i).value)
    {
      if Taken(s, i) {
        assert SlotOk(b, s, i);
        SameJobs(b, s.mem, w.mem, t, Cell(s, i).value);
      }
    }
    forall i: nat | i < Slots(b)
      ensures SlotOk(b, w, i)
    {
      assert SlotOk(b, s, i) && SlotGrows(b, s, w, i);
      if Taken(w, i) {
        var d := Content(b, w.mem, Cell(w, i).value);
        forall j: nat {:trigger At(b, d, j)} | j < StepsTo(b, d, i)
          ensures Taken(w, At(b, d, j))
        {
          assert Taken(s, At(b, d, j));
        }
      }
    }
    forall i: nat, j: nat
      ensures Distinct(b, w, i, j)
    {
      assert Distinct(b, s, i, j) && SlotGrows(b, s, w, i) && SlotGrows(b, s, w, j);
    }
  }

  lemma SameMemory(m: Memory, t: nat)
    ensures Extends(m, m, t)
  {
  }

  lemma PcOnly(b: Bank, s: State, t: nat, pc: Pc)
    requires Inv(b, s) && t < |b.jobs| && PcOk(b, Goto(s, t, pc), t)
    ensures Inv(b, Goto(s, t, pc)) && Grows(b, s, Goto(s, t, pc))
  {
    var w := Goto(s, t, pc);
    SameMemory(s.mem, t);
    TableFramed(b, s, w, t);
    Assemble(b, s, w, t);
  }

  // ----- each step -----

  /** What a thread learns from a loaded cell: nothing there, another text, or its own. */
  lemma Looked(b: Bank, s: State, t: nat, k: nat)
    requires Inv(b, s) && t < |b.jobs| && k < Slots(b) && Passed(b, s, b.jobs[t].data, k)
    ensures var d := b.jobs[t].data; var cell := Cell(s, At(b, d, k));
      cell.Some? ==>
        && Filled(s.mem, cell.value)
        && (Matches(s.mem, cell.value, b.hash(d), d) <==> Content(b, s.mem, cell.value) == d)
        && (forall o :: AtMost(s.mem, cell.value, o) <==> OrdOf(b, s.mem, cell.value) <= o)
        && (Content(b, s.mem, cell.value) != d ==> Passed(b, s, d, k + 1) && k + 1 < Slots(b))
  {
    var d := b.jobs[t].data;
    OneStep(b, d, k);
    var i := At(b, d, k);
    if Taken(s, i) {
      assert SlotOk(b, s, i);
      ReadBack(b, s.mem, Cell(s, i).value, d);
      if Content(b, s.mem, Cell(s, i).value) != d {
        forall j: nat {:trigger At(b, d, j)} | j < k + 1
          ensures Other(b, s, At(b, d, j), d)
        {
          if j < k {
            assert Other(b, s, At(b, d, j), d);
          }
        }
        ProbeIsShort(b, s, d, k + 1);
      }
    }
  }

  lemma PassedGoto(b: Bank, s: State, t: nat, pc: Pc, d: Data, k: nat)
    requires t < |s.pcs| && Passed(b, s, d, k)
    ensures Passed(b, Goto(s, t, pc), d, k)
  {
    var w := Goto(s, t, pc);
    forall j: nat {:trigger At(b, d, j)} | j < k
      ensures Other(b, w, At(b, d, j), d)
    {
      assert Other(b, s, At(b, d, j), d);
    }
  }

  lemma FoundSettles(b: Bank, s: State, t: nat, r: int, i: nat)
    requires t < |b.jobs| && t < |s.pcs| && SettledAt(b, s, t, i) && AnswerOk(b, s.mem, t, r)
    ensures PcOk(b, Goto(s, t, Done(r)), t)
  {
    assert SettledAt(b, Goto(s, t, Done(r)), t, i);
  }

  lemma StepProbe(b: Bank, s: State, t: nat)
    requires Inv(b, s) && t < |b.jobs| && s.pcs[t].Probe?
    ensures Inv(b, Step(b, s, t)) && Grows(b, s, Step(b, s, t))
  {
    var k, job := s.pcs[t].k, b.jobs[t];
    var i := At(b, job.data, k);
    var pc := Probed(b, s.mem, job, k, Cell(s, i));
    assert PcOk(b, s, t);
    Looked(b, s, t, k);
    PassedGoto(b, s, t, pc, job.data, k);
    if pc.Probe? {
      PassedGoto(b, s, t, pc, job.data, k + 1);
    } else if pc.Done? && Taken(s, i) {
      FoundSettles(b, s, t, pc.answer, i);
    }
    PcOnly(b, s, t, pc);
  }

  lemma StepInsert(b: Bank, s: State, t: nat)
    requires Inv(b, s) && t < |b.jobs| && s.pcs[t].Insert?
    ensures Inv(b, Step(b, s, t)) && Grows(b, s, Step(b, s, t))
  {
    var id, k, job := s.pcs[t].id, s.pcs[t].k, b.jobs[t];
    var i := At(b, job.data, k);
    var pc := Inserted(b, s.mem, job, id, k, Cell(s, i));
    assert PcOk(b, s, t);
    Looked(b, s, t, k);
    PassedGoto(b, s, t, pc, job.data, k);
    if pc.Insert? {
      PassedGoto(b, s, t, pc, job.data, k + 1);
    } else if pc.Done? {
      FoundSettles(b, s, t, pc.answer, i);
    }
    PcOnly(b, s, t, pc);
  }

  lemma StepMemory(b: Bank, s: State, t: nat)
    requires Inv(b, s) && t < |b.jobs| && (s.pcs[t].Draw? || s.pcs[t].Room? || s.pcs[t].Fill?)
    ensures Inv(b, Step(b, s, t)) && Grows(b, s, Step(b, s, t))
  {
    assert PcOk(b, s, t);
    var d, w := b.jobs[t].data, Step(b, s, t);
    match s.pcs[t] {
      case Draw(k) => DrawIdKeeps(b, s.mem, t);
      case Room(id, k) => DrawBytesKeeps(b, s.mem, t, id);
      case Fill(id, at, k) => WrittenKeeps(b, s.mem, t, id, at);
    }
    TableFramed(b, s, w, t);
    PassedGrows(b, s, w, d, s.pcs[t].k);
    Assemble(b, s, w, t);
  }

  lemma FailedExchange(b: Bank, s: State, t: nat, id: nat, k: nat)
    requires Inv(b, s) && t < |b.jobs| && (s.pcs[t].TakeEmpty? || s.pcs[t].Displace?) && s.pcs[t].id == id &&
      s.pcs[t].k == k
    ensures Inv(b, Goto(s, t, Insert(id, k))) && Grows(b, s, Goto(s, t, Insert(id, k)))
  {
    assert PcOk(b, s, t);
    PassedGoto(b, s, t, Insert(id, k), b.jobs[t].data, k);
    PcOnly(b, s, t, Insert(id, k));
  }

  /** Publishing `id` at step `k`: into an empty slot, or over an entry it beats. */
  lemma Published(b: Bank, s: State, t: nat, id: nat, k: nat)
    requires Inv(b, s) && t < |b.jobs| && k < Slots(b) && Passed(b, s, b.jobs[t].data, k) && Ready(s.mem, id, t)
    requires var cell := Cell(s, At(b, b.jobs[t].data, k)); cell.Some? ==> Beats(b, s.mem, t, cell.value)
    ensures var i := At(b, b.jobs[t].data, k);
      i < |s.table| && var w := Goto(s.(table := s.table[i := Some(id)]), t, Done(id)); Inv(b, w) && Grows(b, s, w)
  {
    var d := b.jobs[t].data;
    OneStep(b, d, k);
    var i := At(b, d, k);
    var w := Goto(s.(table := s.table[i := Some(id)]), t, Done(id));
    assert EntryOk(b, s.mem, id);
    assert Content(b, w.mem, id) == d;
    SameMemory(s.mem, t);
    PublishGrows(b, s, w, t, id, k);
    PublishTable(b, s, w, t, id, k);
    assert SettledAt(b, w, t, i);
    Assemble(b, s, w, t);
  }

  lemma PublishGrows(b: Bank, s: State, w: State, t: nat, id: nat, k: nat)
    requires t < |b.jobs| && JobOf(b, s.mem, id) == b.jobs[t] && w.mem == s.mem
    requires var i := At(b, b.jobs[t].data, k); i < |s.table| && w.table == s.table[i := Some(id)]
    requires var cell := Cell(s, At(b, b.jobs[t].data, k)); cell.Some? ==> Beats(b, s.mem, t, cell.value)
    ensures Grows(b, s, w)
  {
  }

  lemma PublishTable(b: Bank, s: State, w: State, t: nat, id: nat, k: nat)
    requires TableOk(b, s) && t < |b.jobs| && k < Slots(b) && Passed(b, s, b.jobs[t].data, k)
    requires JobOf(b, s.mem, id) == b.jobs[t] && Filled(s.mem, id) && w.mem == s.mem
    requires var i := At(b, b.jobs[t].data, k); i < |s.table| && w.table == s.table[i := Some(id)]
    requires var cell := Cell(s, At(b, b.jobs[t].data, k)); cell.Some? ==> Beats(b, s.mem, t, cell.value)
    ensures TableOk(b, w)
  {
    var d := b.jobs[t].data;
    var i := At(b, d, k);
    OneStep(b, d, k);
    assert forall j: nat :: Taken(s, j) ==> Taken(w, j);
    forall j: nat | j < Slots(b)
      ensures SlotOk(b, w, j)
    {
      assert SlotOk(b, s, j);
      if Taken(w, j) {
        var c := Content(b, w.mem, Cell(w, j).value);
        forall x: nat {:trigger At(b, c, x)} | x < StepsTo(b, c, j)
          ensures Taken(w, At(b, c, x))
        {
          if j == i {
            assert Other(b, s, At(b, d, x), d);
          } else {
            assert Taken(s, At(b, c, x));
          }
        }
      }
    }
    forall x: nat, y: nat
      ensures Distinct(b, w, x, y)
    {
      assert Distinct(b, s, x, y);
      if x != i {
        NotElsewhere(b, s, d, k, x);
      }
      if y != i {
        NotElsewhere(b, s, d, k, y);
      }
    }
  }

  /** A text whose probe got to step `k`, finding its own text or nothing there, stands in no other slot. */
  lemma NotElsewhere(b: Bank, s: State, d: Data, k: nat, x: nat)
    requires TableOk(b, s) && k < Slots(b) && Passed(b, s, d, k) && x != At(b, d, k)
    requires Taken(s, At(b, d, k)) ==> Holds(b, s, At(b, d, k), d)
    ensures !Holds(b, s, x, d)
  {
    if x < Slots(b) {
      assert Distinct(b, s, x, At(b, d, k)) && SlotOk(b, s, x);
      assert StepsTo(b, d, x) < k ==> Other(b, s, At(b, d, StepsTo(b, d, x)), d);
    }
  }

  lemma StepExchange(b: Bank, s: State, t: nat)
    requires Inv(b, s) && t < |b.jobs| && (s.pcs[t].TakeEmpty? || s.pcs[t].Displace?)
    ensures Inv(b, Step(b, s, t)) && Grows(b, s, Step(b, s, t))
  {
    var id, k := s.pcs[t].id, s.pcs[t].k;
    var expected := if s.pcs[t].TakeEmpty? then None else Some(s.pcs[t].cur);
    assert PcOk(b, s, t);
    OneStep(b, b.jobs[t].data, k);
    if Cell(s, At(b, b.jobs[t].data, k)) == expected {
      Published(b, s, t, id, k);
    } else {
      FailedExchange(b, s, t, id, k);
    }
  }

  /** Every step keeps the invariant; no slot loses its text, and a slot's ordinal only falls. */
  lemma StepKeeps(b: Bank, s: State, t: nat)
    requires Inv(b, s) && t < |b.jobs|
    ensures Inv(b, Step(b, s, t)) && Grows(b, s, Step(b, s, t))
  {
    match s.pcs[t]
    case Probe(_) => StepProbe(b, s, t);
    case Insert(_, _) => StepInsert(b, s, t);
    case TakeEmpty(_, _) => StepExchange(b, s, t);
    case Displace(_, _, _) => StepExchange(b, s, t);
    case Done(r) =>
      assert s.pcs[t := s.pcs[t]] == s.pcs;
      assert Goto(s, t, s.pcs[t]) == s;
      PcOnly(b, s, t, s.pcs[t]);
    case _ => StepMemory(b, s, t);
  }

  lemma StartOk(b: Bank)
    ensures Inv(b, Start(b))
  {
    var s := Start(b);
    assert forall i: nat :: !Taken(s, i);
    forall t: nat | t < |b.jobs|
      ensures PcOk(b, s, t)
    {
      assert s.pcs[t] == Probe(0);
    }
  }
}
