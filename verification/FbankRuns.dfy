/** Whole runs of the bank: they end, the order of threads does not matter, and interning is a function. */
module FbankRuns {
  import opened CoreIr
  import opened Ring
  import opened Fbank
  import opened FbankTable

  predicate Threads(b: Bank, schedule: seq<nat>) {
    forall k :: 0 <= k < |schedule| ==> schedule[k] < |b.jobs|
  }

  /** The threads take one step each in the order of the schedule. */
  function Run(b: Bank, s: State, schedule: seq<nat>): (w: State)
    requires |s.pcs| == |b.jobs| && Threads(b, schedule)
    ensures |w.pcs| == |b.jobs|
    decreases |schedule|
  {
    if schedule == [] then s else Run(b, Step(b, s, schedule[0]), schedule[1..])
  }

  lemma GrowsTransitive(b: Bank, s: State, v: State, w: State)
    requires Grows(b, s, v) && Grows(b, v, w)
    ensures Grows(b, s, w)
  {
    forall i: nat
      ensures SlotGrows(b, s, w, i)
    {
      assert SlotGrows(b, s, v, i) && SlotGrows(b, v, w, i);
    }
  }

  /**
   * In every reachable state the table is in order; from any state to a later one no text moves and ordinals only fall.
   */
  lemma {:induction false} RunKeeps(b: Bank, s: State, schedule: seq<nat>)
    requires Inv(b, s) && Threads(b, schedule)
    ensures Inv(b, Run(b, s, schedule)) && Grows(b, s, Run(b, s, schedule))
    decreases |schedule|
  {
    if schedule == [] {
      SameMemory(s.mem, 0);
      TableFramed(b, s, s, 0);
    } else {
      StepKeeps(b, s, schedule[0]);
      RunKeeps(b, Step(b, s, schedule[0]), schedule[1..]);
      GrowsTransitive(b, s, Step(b, s, schedule[0]), Run(b, s, schedule));
    }
  }

  // ----- every run ends -----

  /** Steps a thread has left if nobody interferes; a compare-exchange that is bound to fail costs one more look. */
  function Rank(b: Bank, s: State, t: nat): int
    requires t < |b.jobs| && t < |s.pcs|
  {
    var n, d := Slots(b), b.jobs[t].data;
    match s.pcs[t]
    case Probe(k) => 4 * n + 10 - k
    case Draw(_) => 3 * n + 6
    case Room(_, _) => 3 * n + 5
    case Fill(_, _, _) => 3 * n + 4
    case Insert(_, k) => 3 * (n - k) + 2
    case TakeEmpty(_, k) => 3 * (n - k) + (if Cell(s, At(b, d, k)).None? then 1 else 3)
    case Displace(_, k, cur) => 3 * (n - k) + (if Cell(s, At(b, d, k)) == Some(cur) then 1 else 3)
    case Done(_) => 0
  }

  /** A finishing thread may spoil a compare-exchange of every other one, so finishing is worth that much. */
  function Weight(b: Bank, s: State, t: nat): int
    requires t < |b.jobs| && t < |s.pcs|
  {
    if s.pcs[t].Done? then 0 else 2 * |b.jobs| + Rank(b, s, t)
  }

  function Work(b: Bank, s: State, n: nat): int
    requires n <= |b.jobs| && n <= |s.pcs|
  {
    if n == 0 then 0 else Work(b, s, n - 1) + Weight(b, s, n - 1)
  }

  lemma {:induction false} WorkChanges(b: Bank, s: State, w: State, t: nat, n: nat, drop: nat, rise: nat)
    requires n <= |b.jobs| == |s.pcs| == |w.pcs| && t < |b.jobs|
    requires Weight(b, w, t) + drop <= Weight(b, s, t)
    requires forall u: nat :: u < |b.jobs| && u != t ==> Weight(b, w, u) <= Weight(b, s, u) + rise
    ensures Work(b, w, n) <= Work(b, s, n) + rise * n - (if t < n then drop else 0)
  {
    if n > 0 {
      WorkChanges(b, s, w, t, n - 1, drop, rise);
      assert rise * n == rise * (n - 1) + rise;
    }
  }

  lemma {:induction false} WorkNatural(b: Bank, s: State, n: nat)
    requires Inv(b, s) && n <= |b.jobs|
    ensures Work(b, s, n) >= 0
  {
    if n > 0 {
      WorkNatural(b, s, n - 1);
      assert PcOk(b, s, n - 1);
    }
  }

  /** A step that leaves the thread unfinished brings it nearer to its end and leaves the others alone. */
  lemma UnfinishedStep(b: Bank, s: State, t: nat)
    requires Inv(b, s) && t < |b.jobs| && !s.pcs[t].Done? && !Step(b, s, t).pcs[t].Done?
    ensures Step(b, s, t).table == s.table && Rank(b, Step(b, s, t), t) < Rank(b, s, t)
  {
    assert PcOk(b, s, t);
    OneStep(b, b.jobs[t].data, s.pcs[t].k);
  }

  lemma OthersRank(b: Bank, s: State, t: nat, u: nat)
    requires Inv(b, s) && t < |b.jobs| && u < |b.jobs| && u != t
    ensures Weight(b, Step(b, s, t), u) <= Weight(b, s, u) + 2
    ensures Step(b, s, t).table == s.table ==> Weight(b, Step(b, s, t), u) == Weight(b, s, u)
  {
  }

  lemma RankPositive(b: Bank, s: State, t: nat)
    requires Inv(b, s) && t < |b.jobs| && !s.pcs[t].Done?
    ensures Rank(b, s, t) >= 1
  {
    assert PcOk(b, s, t);
  }

  lemma StepWorks(b: Bank, s: State, t: nat)
    requires Inv(b, s) && t < |b.jobs| && !s.pcs[t].Done?
    ensures Work(b, Step(b, s, t), |b.jobs|) < Work(b, s, |b.jobs|)
  {
    var w := Step(b, s, t);
    StepKeeps(b, s, t);
    forall u: nat | u < |b.jobs| && u != t
      ensures Weight(b, w, u) <= Weight(b, s, u) + 2 && (w.table == s.table ==> Weight(b, w, u) == Weight(b, s, u))
    {
      OthersRank(b, s, t, u);
    }
    if w.pcs[t].Done? {
      RankPositive(b, s, t);
      WorkChanges(b, s, w, t, |b.jobs|, 2 * |b.jobs| + 1, 2);
    } else {
      UnfinishedStep(b, s, t);
      WorkChanges(b, s, w, t, |b.jobs|, 1, 0);
    }
  }

  /** Only unfinished threads are scheduled. */
  predicate Busy(b: Bank, s: State, schedule: seq<nat>)
    requires |s.pcs| == |b.jobs| && Threads(b, schedule)
    decreases |schedule|
  {
    schedule == [] || (!s.pcs[schedule[0]].Done? && Busy(b, Step(b, s, schedule[0]), schedule[1..]))
  }

  /** However the threads interleave, they take no more steps than the work there was at the start. */
  lemma {:induction false} RunEnds(b: Bank, s: State, schedule: seq<nat>)
    requires Inv(b, s) && Threads(b, schedule) && Busy(b, s, schedule)
    ensures |schedule| <= Work(b, s, |b.jobs|)
    decreases |schedule|
  {
    WorkNatural(b, s, |b.jobs|);
    if schedule != [] {
      StepKeeps(b, s, schedule[0]);
      StepWorks(b, s, schedule[0]);
      RunEnds(b, Step(b, s, schedule[0]), schedule[1..]);
    }
  }

  // ----- a full bank stays full -----

  /** More ids drawn than there are entries, or more bytes than there is room for. */
  predicate Spent(b: Bank, s: State) {
    |s.mem.entries| > b.maxEntries || s.mem.cursor > b.maxBytes
  }

  ghost predicate SomeFull(s: State) {
    exists t: nat :: t < |s.pcs| && s.pcs[t] == Done(FULL)
  }

  /** A refusal for lack of room leaves the bank spent, and it stays so. */
  lemma FullSpends(b: Bank, s: State, t: nat)
    requires Inv(b, s) && t < |b.jobs| && (SomeFull(s) ==> Spent(b, s))
    ensures SomeFull(Step(b, s, t)) ==> Spent(b, Step(b, s, t))
    ensures Spent(b, s) ==> Spent(b, Step(b, s, t))
    ensures s.mem.cursor <= Step(b, s, t).mem.cursor
  {
    hide PcOk;
    assert PcOk(b, s, t);
    var w := Step(b, s, t);
    if SomeFull(w) && !SomeFull(s) {
      assert forall u: nat :: u < |s.pcs| && u != t ==> w.pcs[u] == s.pcs[u];
    }
  }

  lemma {:induction false} FullRun(b: Bank, s: State, schedule: seq<nat>)
    requires Inv(b, s) && (SomeFull(s) ==> Spent(b, s)) && Threads(b, schedule)
    ensures SomeFull(Run(b, s, schedule)) ==> Spent(b, Run(b, s, schedule))
    decreases |schedule|
  {
    if schedule != [] {
      FullSpends(b, s, schedule[0]);
      StepKeeps(b, s, schedule[0]);
      FullRun(b, Step(b, s, schedule[0]), schedule[1..]);
    }
  }

  /** A thread that will get no room: about to draw from a spent bank, or past its draw with the bytes used up. */
  predicate Doomed(b: Bank, s: State, t: nat) {
    && t < |s.pcs|
    && match s.pcs[t]
       case Draw(_) => Spent(b, s)
       case Room(_, _) => s.mem.cursor > b.maxBytes
       case Done(r) => r == FULL
       case _ => false
  }

  lemma DoomedStep(b: Bank, s: State, u: nat, t: nat)
    requires Inv(b, s) && u < |b.jobs| && t < |b.jobs| && Doomed(b, s, t)
    ensures Doomed(b, Step(b, s, u), t)
  {
    assert PcOk(b, s, t) && PcOk(b, s, u);
  }

  lemma {:induction false} DoomedRun(b: Bank, s: State, schedule: seq<nat>, t: nat)
    requires Inv(b, s) && t < |b.jobs| && Doomed(b, s, t) && Threads(b, schedule)
    ensures Doomed(b, Run(b, s, schedule), t)
    decreases |schedule|
  {
    if schedule != [] {
      DoomedStep(b, s, schedule[0], t);
      StepKeeps(b, s, schedule[0]);
      DoomedRun(b, Step(b, s, schedule[0]), schedule[1..], t);
    }
  }

  /** Once some call has answered -2, every call that is yet to draw an id ends with -2. */
  lemma FullForGood(b: Bank, schedule: seq<nat>, later: seq<nat>, t: nat)
    requires Threads(b, schedule) && Threads(b, later) && t < |b.jobs|
    requires SomeFull(Run(b, Start(b), schedule)) && Run(b, Start(b), schedule).pcs[t].Draw?
    ensures var w := Run(b, Run(b, Start(b), schedule), later); w.pcs[t].Done? ==> w.pcs[t] == Done(FULL)
  {
    StartOk(b);
    FullRun(b, Start(b), schedule);
    RunKeeps(b, Start(b), schedule);
    DoomedRun(b, Run(b, Start(b), schedule), later, t);
  }

  // ----- the lowest ordinal holds -----

  function DataOf(jobs: seq<Job>, t: nat): Data {
    if t < |jobs| then jobs[t].data else []
  }

  /** The sequential pass: in the given order, keep whoever brings a text not seen before. */
  function FirstSeen(jobs: seq<Job>, order: seq<nat>): set<nat> {
    if order == [] then {} else
    var kept := FirstSeen(jobs, order[..|order| - 1]);
    var t := order[|order| - 1];
    if exists u :: u in kept && DataOf(jobs, u) == DataOf(jobs, t) then kept else kept + {t}
  }

  ghost predicate New(jobs: seq<Job>, order: seq<nat>, p: nat)
    requires p < |order|
  {
    forall q: nat :: q < p ==> DataOf(jobs, order[q]) != DataOf(jobs, order[p])
  }

  lemma NewInPrefix(jobs: seq<Job>, order: seq<nat>, p: nat)
    requires p < |order| - 1
    ensures New(jobs, order[..|order| - 1], p) <==> New(jobs, order, p)
  {
    var init := order[..|order| - 1];
    assert forall q: nat :: q < |init| ==> init[q] == order[q];
  }

  /** Every text of the order is represented among the kept. */
  lemma {:induction false} KeptCover(jobs: seq<Job>, order: seq<nat>, p: nat) returns (u: nat)
    requires p < |order|
    ensures u in FirstSeen(jobs, order) && DataOf(jobs, u) == DataOf(jobs, order[p])
    decreases |order|
  {
    var init, t := order[..|order| - 1], order[|order| - 1];
    if p < |init| {
      u := KeptCover(jobs, init, p);
    } else if v :| v in FirstSeen(jobs, init) && DataOf(jobs, v) == DataOf(jobs, t) {
      u := v;
    } else {
      u := t;
    }
  }

  /** Whoever is kept came first with its text. */
  lemma {:induction false} KeptIsNew(jobs: seq<Job>, order: seq<nat>, t: nat) returns (p: nat)
    requires t in FirstSeen(jobs, order)
    ensures p < |order| && order[p] == t && New(jobs, order, p)
    decreases |order|
  {
    var init := order[..|order| - 1];
    if t in FirstSeen(jobs, init) {
      p := KeptIsNew(jobs, init, t);
      NewInPrefix(jobs, order, p);
    } else {
      p := |order| - 1;
      forall q: nat | q < p
        ensures DataOf(jobs, order[q]) != DataOf(jobs, order[p])
      {
        var u := KeptCover(jobs, init, q);
        assert init[q] == order[q];
      }
    }
  }

  /** Whoever came first is kept. */
  lemma {:induction false} NewIsKept(jobs: seq<Job>, order: seq<nat>, p: nat)
    requires p < |order| && New(jobs, order, p)
    ensures order[p] in FirstSeen(jobs, order)
    decreases |order|
  {
    var init := order[..|order| - 1];
    if p < |init| {
      NewInPrefix(jobs, order, p);
      NewIsKept(jobs, init, p);
    } else {
      forall u | u in FirstSeen(jobs, init)
        ensures DataOf(jobs, u) != DataOf(jobs, order[p])
      {
        var q := KeptIsNew(jobs, init, u);
        assert order[q] == u;
      }
    }
  }

  ghost predicate AllPut(b: Bank) {
    forall t: nat :: t < |b.jobs| ==> b.jobs[t].kind.Put?
  }

  ghost predicate Listed(order: seq<nat>, t: nat) {
    exists p: nat :: p < |order| && order[p] == t
  }

  /** `order` lists every thread, by strictly rising ordinal. */
  ghost predicate OrdinalOrder(b: Bank, order: seq<nat>) {
    && (forall t: nat :: t < |b.jobs| ==> Listed(order, t))
    && (forall p: nat :: p < |order| ==> order[p] < |b.jobs|)
    && (forall p: nat, q: nat :: p < q < |order| ==> Ordinal(b.jobs[order[p]]) < Ordinal(b.jobs[order[q]]))
  }

  ghost predicate AllAnswered(b: Bank, s: State) {
    |s.pcs| == |b.jobs| && forall t: nat :: t < |b.jobs| ==> s.pcs[t].Done? && s.pcs[t].answer != FULL
  }

  predicate HeldBy(s: State, i: nat, t: nat) {
    Taken(s, i) && Owner(s.mem, Cell(s, i).value) == t
  }

  /** A slot's holder belongs to a thread whose text and ordinal it carries. */
  lemma HolderJob(b: Bank, s: State, i: nat)
    requires Inv(b, s) && Taken(s, i)
    ensures var c := Cell(s, i).value; Owner(s.mem, c) < |b.jobs| && JobOf(b, s.mem, c) == b.jobs[Owner(s.mem, c)]
  {
    assert SlotOk(b, s, i) && EntryOk(b, s.mem, Cell(s, i).value);
  }

  /** The slot with a finished put's text holds it under no higher ordinal. */
  lemma SettledSlot(b: Bank, s: State, t: nat, i: nat)
    requires Inv(b, s) && AllPut(b) && AllAnswered(b, s) && t < |b.jobs| && Holds(b, s, i, b.jobs[t].data)
    ensures OrdOf(b, s.mem, Cell(s, i).value) <= Ordinal(b.jobs[t])
  {
    assert PcOk(b, s, t);
    var j: nat :| SettledAt(b, s, t, j);
    assert Distinct(b, s, i, j);
  }

  ghost predicate IsHolder(s: State, t: nat) {
    exists i: nat :: HeldBy(s, i, t)
  }

  lemma HolderIsFirst(b: Bank, s: State, order: seq<nat>, i: nat, t: nat)
    requires Inv(b, s) && AllPut(b) && OrdinalOrder(b, order) && AllAnswered(b, s) && HeldBy(s, i, t)
    ensures t in FirstSeen(b.jobs, order)
  {
    HolderJob(b, s, i);
    assert Listed(order, t);
    var p: nat :| p < |order| && order[p] == t;
    forall q: nat | q < p
      ensures DataOf(b.jobs, order[q]) != DataOf(b.jobs, order[p])
    {
      if DataOf(b.jobs, order[q]) == DataOf(b.jobs, order[p]) {
        SettledSlot(b, s, order[q], i);
      }
    }
    NewIsKept(b.jobs, order, p);
  }

  lemma FirstIsHolder(b: Bank, s: State, order: seq<nat>, t: nat) returns (i: nat)
    requires Inv(b, s) && AllPut(b) && OrdinalOrder(b, order) && AllAnswered(b, s) && t in FirstSeen(b.jobs, order)
    ensures HeldBy(s, i, t)
  {
    var p := KeptIsNew(b.jobs, order, t);
    assert PcOk(b, s, t);
    i :| SettledAt(b, s, t, i);
    HolderJob(b, s, i);
    var v := Owner(s.mem, Cell(s, i).value);
    assert Listed(order, v);
    var q: nat :| q < |order| && order[q] == v;
    assert q < p ==> DataOf(b.jobs, order[q]) != DataOf(b.jobs, order[p]);
  }

  /** Once every put has finished, those who hold their text are those a sequential pass in ordinal order keeps. */
  lemma OrderIndependent(b: Bank, schedule: seq<nat>, order: seq<nat>)
    requires Threads(b, schedule) && AllPut(b) && OrdinalOrder(b, order)
    requires AllAnswered(b, Run(b, Start(b), schedule))
    ensures forall t: nat :: t in FirstSeen(b.jobs, order) <==> IsHolder(Run(b, Start(b), schedule), t)
  {
    var s := Run(b, Start(b), schedule);
    StartOk(b);
    RunKeeps(b, Start(b), schedule);
    forall t: nat
      ensures t in FirstSeen(b.jobs, order) <==> IsHolder(s, t)
    {
      if t in FirstSeen(b.jobs, order) {
        var i := FirstIsHolder(b, s, order, t);
      }
      if IsHolder(s, t) {
        var i: nat :| HeldBy(s, i, t);
        HolderIsFirst(b, s, order, i, t);
      }
    }
  }

  // ----- interning -----

  /** An interning bank: texts are interned and looked up, and nobody puts with an ordinal. */
  ghost predicate NoPut(b: Bank) {
    forall t: nat :: t < |b.jobs| ==> !b.jobs[t].kind.Put?
  }

  /** Entry `c` stands in the table. */
  ghost predicate Standing(s: State, c: nat) {
    exists i: nat :: Cell(s, i) == Some(c)
  }

  ghost predicate InternOk(b: Bank, s: State) {
    |s.pcs| == |b.jobs| &&
    forall t: nat :: t < |b.jobs| && s.pcs[t].Done? && s.pcs[t].answer >= 0 ==> Standing(s, s.pcs[t].answer)
  }

  /** Nobody displaces an interned entry. */
  lemma InternStands(b: Bank, s: State, w: State, c: nat)
    requires NoPut(b) && Grows(b, s, w) && Standing(s, c)
    ensures Standing(w, c)
  {
    var i: nat :| Cell(s, i) == Some(c);
    assert SlotGrows(b, s, w, i);
    assert Cell(w, i) == Some(c);
  }

  lemma InternStep(b: Bank, s: State, t: nat)
    requires Inv(b, s) && NoPut(b) && InternOk(b, s) && t < |b.jobs|
    ensures InternOk(b, Step(b, s, t))
  {
    var w := Step(b, s, t);
    StepKeeps(b, s, t);
    forall u: nat | u < |b.jobs| && w.pcs[u].Done? && w.pcs[u].answer >= 0
      ensures Standing(w, w.pcs[u].answer)
    {
      if w.pcs[u] == s.pcs[u] {
        InternStands(b, s, w, s.pcs[u].answer);
      } else {
        assert PcOk(b, s, t);
        var i := At(b, b.jobs[t].data, s.pcs[t].k);
        assert Cell(w, i) == Some(w.pcs[t].answer);
      }
    }
  }

  lemma {:induction false} InternRun(b: Bank, s: State, schedule: seq<nat>)
    requires Inv(b, s) && NoPut(b) && InternOk(b, s) && Threads(b, schedule)
    ensures InternOk(b, Run(b, s, schedule)) && Inv(b, Run(b, s, schedule))
    decreases |schedule|
  {
    if schedule != [] {
      InternStep(b, s, schedule[0]);
      StepKeeps(b, s, schedule[0]);
      InternRun(b, Step(b, s, schedule[0]), schedule[1..]);
    }
  }

  /** The entry that stands for a text, as a lookup finds it: there is at most one. */
  lemma OneEntryPerText(b: Bank, s: State, c: nat, e: nat)
    requires Inv(b, s) && Standing(s, c) && Standing(s, e)
    ensures Content(b, s.mem, c) == Content(b, s.mem, e) <==> c == e
  {
    var i: nat, j: nat :| Cell(s, i) == Some(c) && Cell(s, j) == Some(e);
    assert Distinct(b, s, i, j);
  }

  /** A thread's answer, once it has an id. */
  predicate Interned(b: Bank, s: State, t: nat, id: nat) {
    t < |b.jobs| && t < |s.pcs| && s.pcs[t] == Done(id)
  }

  lemma {:induction false} AnswerStays(b: Bank, s: State, schedule: seq<nat>, t: nat, id: nat)
    requires |s.pcs| == |b.jobs| && Threads(b, schedule) && Interned(b, s, t, id)
    ensures Interned(b, Run(b, s, schedule), t, id)
    decreases |schedule|
  {
    if schedule != [] {
      AnswerStays(b, Step(b, s, schedule[0]), schedule[1..], t, id);
    }
  }

  /**
   * Interning is a function: whenever two calls have their ids, at whatever points of the run, the ids are equal
   * exactly when the texts are; and from then on the table answers the text with that id.
   */
  lemma InternIsFunction(b: Bank, schedule: seq<nat>, later: seq<nat>, t: nat, x: nat, u: nat, y: nat)
    requires NoPut(b) && Threads(b, schedule) && Threads(b, later)
    requires Interned(b, Run(b, Start(b), schedule), t, x)
    requires Interned(b, Run(b, Run(b, Start(b), schedule), later), u, y)
    ensures x == y <==> b.jobs[t].data == b.jobs[u].data
    ensures var w := Run(b, Run(b, Start(b), schedule), later);
      Inv(b, w) && Standing(w, x) && Content(b, w.mem, x) == b.jobs[t].data
  {
    var s := Run(b, Start(b), schedule);
    var w := Run(b, s, later);
    StartOk(b);
    InternRun(b, Start(b), schedule);
    InternRun(b, s, later);
    AnswerStays(b, s, later, t, x);
    assert PcOk(b, w, t) && PcOk(b, w, u);
    OneEntryPerText(b, w, x, y);
  }

  // ----- a lookup that runs among the others -----

  /** Where a lookup for a text that stands in slot `i` under entry `x` can be. */
  predicate LookingFor(b: Bank, s: State, u: nat, i: nat, x: nat) {
    && u < |b.jobs| && u < |s.pcs| && i < Slots(b) && Cell(s, i) == Some(x)
    && Content(b, s.mem, x) == b.jobs[u].data && b.jobs[u].kind.Lookup?
    && (s.pcs[u].Probe? || s.pcs[u] == Done(x))
  }

  /** The probe has not got past the text, and every slot up to it is taken. */
  lemma LookupNears(b: Bank, s: State, u: nat, i: nat, x: nat)
    requires Inv(b, s) && LookingFor(b, s, u, i, x) && s.pcs[u].Probe?
    ensures var d, k := b.jobs[u].data, s.pcs[u].k;
      && k < Slots(b) && Passed(b, s, d, k) && Taken(s, At(b, d, k))
      && (Holds(b, s, At(b, d, k), d) ==> At(b, d, k) == i)
  {
    var d, k := b.jobs[u].data, s.pcs[u].k;
    assert PcOk(b, s, u) && SlotOk(b, s, i) && Taken(s, i);
    assert StepsTo(b, d, i) < k ==> Other(b, s, At(b, d, StepsTo(b, d, i)), d);
    assert k <= StepsTo(b, d, i);
    assert k < StepsTo(b, d, i) ==> Taken(s, At(b, d, k));
    assert Distinct(b, s, At(b, d, k), i);
  }

  lemma LookupStep(b: Bank, s: State, t: nat, u: nat, i: nat, x: nat)
    requires Inv(b, s) && NoPut(b) && LookingFor(b, s, u, i, x) && t < |b.jobs|
    ensures LookingFor(b, Step(b, s, t), u, i, x)
  {
    var w := Step(b, s, t);
    StepKeeps(b, s, t);
    assert SlotGrows(b, s, w, i);
    if t == u && s.pcs[u].Probe? {
      LookupNears(b, s, u, i, x);
      Looked(b, s, u, s.pcs[u].k);
    }
  }

  lemma {:induction false} LookupRun(b: Bank, s: State, schedule: seq<nat>, u: nat, i: nat, x: nat)
    requires Inv(b, s) && NoPut(b) && LookingFor(b, s, u, i, x) && Threads(b, schedule)
    ensures LookingFor(b, Run(b, s, schedule), u, i, x)
    decreases |schedule|
  {
    if schedule != [] {
      LookupStep(b, s, schedule[0], u, i, x);
      StepKeeps(b, s, schedule[0]);
      LookupRun(b, Step(b, s, schedule[0]), schedule[1..], u, i, x);
    }
  }

  /**
   * In any bank a lookup answers for one moment, that of its last step: the entry that stood for the text then, or none
   * because no slot held it.
   */
  lemma LookupIsAtomic(b: Bank, s: State, t: nat)
    requires Inv(b, s) && t < |b.jobs| && b.jobs[t].kind.Lookup? && s.pcs[t].Probe? && Step(b, s, t).pcs[t].Done?
    ensures var d, r := b.jobs[t].data, Step(b, s, t).pcs[t].answer;
      if r >= 0 then Standing(s, r) && Content(b, s.mem, r) == d
      else r == ABSENT && forall i: nat :: !Holds(b, s, i, d)
  {
    var d, k := b.jobs[t].data, s.pcs[t].k;
    var at := At(b, d, k);
    assert PcOk(b, s, t);
    Looked(b, s, t, k);
    if Taken(s, at) {
      assert Standing(s, Cell(s, at).value);
    } else {
      forall i: nat
        ensures !Holds(b, s, i, d)
      {
        if i != at {
          NotElsewhere(b, s, d, k, i);
        }
      }
    }
  }

  /**
   * A lookup that starts after an intern call has its id returns that id, whatever other threads do meanwhile.
   */
  lemma FindSeesInterned(b: Bank, schedule: seq<nat>, later: seq<nat>, t: nat, x: nat, u: nat)
    requires NoPut(b) && Threads(b, schedule) && Threads(b, later)
    requires Interned(b, Run(b, Start(b), schedule), t, x)
    requires u < |b.jobs| && b.jobs[u] == Job(b.jobs[t].data, Lookup) && Run(b, Start(b), schedule).pcs[u] == Probe(0)
    ensures var w := Run(b, Run(b, Start(b), schedule), later); w.pcs[u].Done? ==> w.pcs[u] == Done(x)
  {
    var s := Run(b, Start(b), schedule);
    StartOk(b);
    InternRun(b, Start(b), schedule);
    assert PcOk(b, s, t);
    var i: nat :| Cell(s, i) == Some(x);
    LookupRun(b, s, later, u, i, x);
  }

  // ----- lookups on a table nobody is changing -----

  /** The slot after `i`. */
  function After(b: Bank, i: nat): nat
    requires i < Slots(b)
  {
    if i + 1 == Slots(b) then 0 else i + 1
  }

  /** The id an intern call returned is the one a lookup finds from then on. */
  method InternedIsFound(b: Bank, ghost schedule: seq<nat>, ghost later: seq<nat>, ghost t: nat, ghost x: nat,
      w: State, d: Data)
    returns (r: int)
    requires NoPut(b) && Threads(b, schedule) && Threads(b, later) && Interned(b, Run(b, Start(b), schedule), t, x)
    requires w == Run(b, Run(b, Start(b), schedule), later) && d == b.jobs[t].data
    ensures r == x
  {
    AnswerStays(b, Run(b, Start(b), schedule), later, t, x);
    InternIsFunction(b, schedule, later, t, x, t, x);
    r := Find(b, w, d);
  }

  /** `fbank_find`: the id that holds the text, or -1 when no slot does. */
  method Find(b: Bank, s: State, d: Data) returns (r: int)
    requires Inv(b, s)
    ensures r >= 0 ==> Standing(s, r) && Content(b, s.mem, r) == d
    ensures r < 0 ==> r == ABSENT && forall i: nat :: !Holds(b, s, i, d)
    ensures forall c: nat :: Standing(s, c) && Content(b, s.mem, c) == d ==> r == c
  {
    var h := b.hash(d);
    var i := Home(b, d);
    ghost var k := 0;
    while true
      invariant k < Slots(b) && i == At(b, d, k) && i < |s.table| && Passed(b, s, d, k)
      decreases Slots(b) - k
    {
      if s.table[i] == None {
        forall x: nat
          ensures !Holds(b, s, x, d)
        {
          if x != i {
            NotElsewhere(b, s, d, k, x);
          }
        }
        forall c: nat | Standing(s, c)
          ensures Content(b, s.mem, c) != d
        {
          var x: nat :| Cell(s, x) == Some(c);
          assert !Holds(b, s, x, d);
        }
        return ABSENT;
      }
      var c := s.table[i].value;
      assert SlotOk(b, s, i) && Taken(s, i);
      ReadBack(b, s.mem, c, d);
      if Matches(s.mem, c, h, d) {
        assert Cell(s, i) == Some(c);
        forall e: nat | Standing(s, e) && Content(b, s.mem, e) == d
          ensures e == c
        {
          OneEntryPerText(b, s, c, e);
        }
        return c;
      }
      assert Passed(b, s, d, k + 1) by {
        forall j: nat {:trigger At(b, d, j)} | j < k + 1
          ensures Other(b, s, At(b, d, j), d)
        {
          if j < k {
            assert Other(b, s, At(b, d, j), d);
          }
        }
      }
      ProbeIsShort(b, s, d, k + 1);
      i := After(b, i);
      k := k + 1;
    }
  }

  /** What `fbank_holds` reads of entry `e`: written or not. */
  function StoredBytes(m: Memory, e: nat): Data {
    if e < |m.off| && e < |m.len| && m.off[e] + m.len[e] <= |m.bytes|
    then m.bytes[m.off[e]..m.off[e] + m.len[e]]
    else []
  }

  lemma EmptyAhead(b: Bank, s: State, home: nat, k: nat)
    requires MemOk(b, s.mem) && TableOk(b, s) && home < Slots(b)
    requires forall j: nat :: j < k ==> Taken(s, Round(Slots(b), home, j))
    ensures k < Slots(b)
  {
    var free := EmptySlotRemains(b, s);
    assert Round(Slots(b), home, Steps(Slots(b), home, free)) == free;
  }

  /** An entry stands in the slot of its text or nowhere. */
  lemma StandsInItsSlot(b: Bank, s: State, e: nat, i: nat)
    requires Inv(b, s) && Filled(s.mem, e) && Holds(b, s, i, Content(b, s.mem, e))
    ensures Standing(s, e) <==> Cell(s, i) == Some(e)
  {
    if Standing(s, e) {
      var j: nat :| Cell(s, j) == Some(e);
      assert Distinct(b, s, i, j);
    }
  }

  lemma StandingIsFilled(b: Bank, s: State, e: nat)
    requires Inv(b, s) && Standing(s, e)
    ensures Filled(s.mem, e)
  {
    var i: nat :| Cell(s, i) == Some(e);
    assert SlotOk(b, s, i);
  }

  /** `fbank_holds`: whether entry `e` holds its text. */
  method HoldsEntry(b: Bank, s: State, e: nat) returns (r: bool)
    requires Inv(b, s) && e < |s.mem.entries| && e < b.maxEntries
    ensures r <==> Standing(s, e)
  {
    var h, d := s.mem.hash[e], StoredBytes(s.mem, e);
    var i := h % Slots(b);
    ghost var home, k := i, 0;
    if Filled(s.mem, e) {
      assert EntryOk(b, s.mem, e);
    }
    while true
      invariant k < Slots(b) && home < Slots(b) && i == Round(Slots(b), home, k) && i < |s.table|
      invariant Filled(s.mem, e) ==>
        d == Content(b, s.mem, e) && h == b.hash(d) && home == Home(b, d) && Passed(b, s, d, k)
      invariant forall j: nat :: j < k ==> Taken(s, Round(Slots(b), home, j))
      decreases Slots(b) - k
    {
      if s.table[i] == None {
        if Standing(s, e) {
          StandingIsFilled(b, s, e);
          var j: nat :| Cell(s, j) == Some(e);
          NotElsewhere(b, s, d, k, j);
        }
        return false;
      }
      var c := s.table[i].value;
      assert SlotOk(b, s, i) && Taken(s, i);
      ReadBack(b, s.mem, c, d);
      if Matches(s.mem, c, h, d) {
        if Filled(s.mem, e) {
          StandsInItsSlot(b, s, e, i);
        } else if Standing(s, e) {
          StandingIsFilled(b, s, e);
        }
        return c == e;
      }
      assert Filled(s.mem, e) ==> Passed(b, s, d, k + 1) by {
        forall j: nat {:trigger At(b, d, j)} | Filled(s.mem, e) && j < k + 1
          ensures Other(b, s, At(b, d, j), d)
        {
          if j < k {
            assert Other(b, s, At(b, d, j), d);
          }
        }
      }
      EmptyAhead(b, s, home, k + 1);
      i := After(b, i);
      k := k + 1;
    }
  }
}
