/** What the bank's calls answer: an id for who published, -1 for who was beaten, -2 only for lack of room. */
module FbankAnswers {
  import opened CoreIr
  import opened Fbank
  import opened FbankTable
  import opened FbankRuns

  // ----- one step -----

  /** A step that changes the table publishes the thread's own entry, and answers its id. */
  lemma PublishAnswers(b: Bank, s: State, t: nat) returns (i: nat, c: nat)
    requires Inv(b, s) && t < |b.jobs| && Step(b, s, t).table != s.table
    ensures !s.pcs[t].Done? && i < |s.table| && Step(b, s, t).table == s.table[i := Some(c)]
    ensures Step(b, s, t).pcs == s.pcs[t := Done(c)] && Step(b, s, t).mem == s.mem
    ensures Filled(s.mem, c) && Owner(s.mem, c) == t
  {
    assert PcOk(b, s, t);
    i, c := At(b, b.jobs[t].data, s.pcs[t].k), s.pcs[t].id;
  }

  /** A put ends by publishing, beaten with the table as it is, or for lack of room. */
  lemma PutEnds(b: Bank, s: State, t: nat)
    requires Inv(b, s) && t < |b.jobs| && b.jobs[t].kind.Put? && !s.pcs[t].Done? && Step(b, s, t).pcs[t].Done?
    ensures var w := Step(b, s, t); var r := w.pcs[t].answer;
      && (r == FULL || r == REFUSED || r >= 0)
      && (r >= 0 <==> w.table != s.table)
      && (r == REFUSED ==> w.mem == s.mem && Settled(b, s, t))
  {
    var d, k, w := b.jobs[t].data, s.pcs[t].k, Step(b, s, t);
    assert PcOk(b, s, t);
    if s.pcs[t].Probe? || s.pcs[t].Insert? {
      Looked(b, s, t, k);
      if w.pcs[t] == Done(REFUSED) {
        assert SettledAt(b, s, t, At(b, d, k));
      }
    } else if s.pcs[t].Displace? {
      assert JobOf(b, s.mem, s.pcs[t].id) == b.jobs[t];
    }
  }

  /** -1 means that the text stands under an ordinal no higher than the put's own; nothing was published. */
  lemma RefusedIsBeaten(b: Bank, s: State, t: nat) returns (i: nat)
    requires Inv(b, s) && t < |b.jobs| && b.jobs[t].kind.Put? && !s.pcs[t].Done?
    requires Step(b, s, t).pcs[t] == Done(REFUSED)
    ensures Step(b, s, t).table == s.table && Taken(s, i)
    ensures Content(b, s.mem, Cell(s, i).value) == b.jobs[t].data
    ensures OrdOf(b, s.mem, Cell(s, i).value) <= b.jobs[t].kind.ordinal
  {
    PutEnds(b, s, t);
    i :| SettledAt(b, s, t, i);
  }

  // ----- over runs -----

  /** Some step of thread `t` changes the table. */
  predicate Publishes(b: Bank, s: State, schedule: seq<nat>, t: nat)
    requires |s.pcs| == |b.jobs| && Threads(b, schedule)
    decreases |schedule|
  {
    schedule != [] &&
    ((schedule[0] == t && Step(b, s, t).table != s.table) || Publishes(b, Step(b, s, schedule[0]), schedule[1..], t))
  }

  lemma {:induction false} DoneForGood(b: Bank, s: State, schedule: seq<nat>, t: nat)
    requires |s.pcs| == |b.jobs| && Threads(b, schedule) && t < |b.jobs| && s.pcs[t].Done?
    ensures Run(b, s, schedule).pcs[t] == s.pcs[t] && !Publishes(b, s, schedule, t)
    decreases |schedule|
  {
    if schedule != [] {
      DoneForGood(b, Step(b, s, schedule[0]), schedule[1..], t);
    }
  }

  /** A finished put that had room answers -1 exactly when it never published, and else the id of its own entry. */
  lemma {:induction false} PutAnswers(b: Bank, s: State, schedule: seq<nat>, t: nat)
    requires Inv(b, s) && Threads(b, schedule) && t < |b.jobs| && b.jobs[t].kind.Put? && !s.pcs[t].Done?
    requires Run(b, s, schedule).pcs[t].Done? && Run(b, s, schedule).pcs[t].answer != FULL
    ensures var r := Run(b, s, schedule).pcs[t].answer;
      (r == REFUSED <==> !Publishes(b, s, schedule, t)) && (r >= 0 <==> Publishes(b, s, schedule, t))
    decreases |schedule|
  {
    var w := Step(b, s, schedule[0]);
    StepKeeps(b, s, schedule[0]);
    if w.pcs[t].Done? {
      assert schedule[0] == t;
      PutEnds(b, s, t);
      DoneForGood(b, w, schedule[1..], t);
    } else {
      if schedule[0] == t && w.table != s.table {
        var i, c := PublishAnswers(b, s, t);
      }
      PutAnswers(b, w, schedule[1..], t);
    }
  }

  /** Whoever owns a standing entry has answered its id. */
  ghost predicate HoldersAnswered(b: Bank, s: State) {
    |s.pcs| == |b.jobs| && forall i: nat {:trigger Taken(s, i)} :: Taken(s, i) ==>
      Owner(s.mem, Cell(s, i).value) < |b.jobs| &&
      s.pcs[Owner(s.mem, Cell(s, i).value)] == Done(Cell(s, i).value)
  }

  lemma HoldersStep(b: Bank, s: State, t: nat)
    requires Inv(b, s) && HoldersAnswered(b, s) && t < |b.jobs|
    ensures HoldersAnswered(b, Step(b, s, t))
  {
    var w := Step(b, s, t);
    if w.table != s.table {
      var i, c := PublishAnswers(b, s, t);
      forall x: nat | Taken(w, x)
        ensures Owner(w.mem, Cell(w, x).value) < |b.jobs| &&
          w.pcs[Owner(w.mem, Cell(w, x).value)] == Done(Cell(w, x).value)
      {
        if x != i {
          assert Taken(s, x);
        }
      }
    } else {
      forall x: nat | Taken(w, x)
        ensures Owner(w.mem, Cell(w, x).value) < |b.jobs| &&
          w.pcs[Owner(w.mem, Cell(w, x).value)] == Done(Cell(w, x).value)
      {
        assert Taken(s, x) && Filled(s.mem, Cell(s, x).value) by {
          assert SlotOk(b, s, x);
        }
        OwnersStay(b, s, t, Cell(s, x).value);
      }
    }
  }

  lemma OwnersStay(b: Bank, s: State, t: nat, c: nat)
    requires Inv(b, s) && t < |b.jobs| && c < |s.mem.entries|
    ensures Owner(Step(b, s, t).mem, c) == Owner(s.mem, c)
  {
  }

  lemma {:induction false} HoldersRun(b: Bank, s: State, schedule: seq<nat>)
    requires Inv(b, s) && HoldersAnswered(b, s) && Threads(b, schedule)
    ensures HoldersAnswered(b, Run(b, s, schedule))
    decreases |schedule|
  {
    if schedule != [] {
      HoldersStep(b, s, schedule[0]);
      StepKeeps(b, s, schedule[0]);
      HoldersRun(b, Step(b, s, schedule[0]), schedule[1..]);
    }
  }

  /** At every moment of every run the holder of a text is a call that has answered that entry's id. */
  lemma HolderAnswers(b: Bank, schedule: seq<nat>, i: nat)
    requires Threads(b, schedule) && Taken(Run(b, Start(b), schedule), i)
    ensures var s := Run(b, Start(b), schedule); var c := Cell(s, i).value;
      Owner(s.mem, c) < |b.jobs| && s.pcs[Owner(s.mem, c)] == Done(c)
  {
    StartOk(b);
    assert forall x: nat :: !Taken(Start(b), x);
    HoldersRun(b, Start(b), schedule);
  }

  /** Call `t` has answered the id under which its text stands in slot `i`. */
  predicate AnsweredAt(b: Bank, s: State, t: nat, i: nat) {
    && t < |b.jobs| && t < |s.pcs| && Taken(s, i)
    && s.pcs[t] == Done(Cell(s, i).value) && Content(b, s.mem, Cell(s, i).value) == b.jobs[t].data
  }

  /** Those a sequential pass in ordinal order keeps have all answered the id under which their text stands. */
  lemma FirstSeenAnswer(b: Bank, schedule: seq<nat>, order: seq<nat>, t: nat) returns (i: nat)
    requires Threads(b, schedule) && AllPut(b) && OrdinalOrder(b, order)
    requires AllAnswered(b, Run(b, Start(b), schedule)) && t in FirstSeen(b.jobs, order)
    ensures AnsweredAt(b, Run(b, Start(b), schedule), t, i)
  {
    OrderIndependent(b, schedule, order);
    var s := Run(b, Start(b), schedule);
    i :| HeldBy(s, i, t);
    HolderAnswers(b, schedule, i);
    StartOk(b);
    RunKeeps(b, Start(b), schedule);
    HolderJob(b, s, i);
  }

  // ----- room -----

  function Total(jobs: seq<Job>, n: nat): nat
    requires n <= |jobs|
  {
    if n == 0 then 0 else Total(jobs, n - 1) + |jobs[n - 1].data|
  }

  predicate BeforeDraw(pc: Pc) {
    pc.Probe? || pc.Draw?
  }

  predicate BeforeRoom(pc: Pc) {
    BeforeDraw(pc) || pc.Room?
  }

  /** Ids the first `n` threads may yet draw. */
  function Undrawn(s: State, n: nat): nat
    requires n <= |s.pcs|
  {
    if n == 0 then 0 else Undrawn(s, n - 1) + (if BeforeDraw(s.pcs[n - 1]) then 1 else 0)
  }

  /** Bytes they may yet ask for. */
  function Unplaced(b: Bank, s: State, n: nat): nat
    requires n <= |s.pcs| && n <= |b.jobs|
  {
    if n == 0 then 0 else Unplaced(b, s, n - 1) + (if BeforeRoom(s.pcs[n - 1]) then |b.jobs[n - 1].data| else 0)
  }

  lemma {:induction false} UndrawnFalls(s: State, w: State, t: nat, n: nat)
    requires n <= |s.pcs| == |w.pcs| && t < |s.pcs|
    requires forall u: nat :: u < |s.pcs| && u != t ==> w.pcs[u] == s.pcs[u]
    requires BeforeDraw(w.pcs[t]) ==> BeforeDraw(s.pcs[t])
    ensures Undrawn(w, n) + (if t < n && BeforeDraw(s.pcs[t]) && !BeforeDraw(w.pcs[t]) then 1 else 0) == Undrawn(s, n)
  {
    if n > 0 {
      UndrawnFalls(s, w, t, n - 1);
    }
  }

  lemma {:induction false} UnplacedFalls(b: Bank, s: State, w: State, t: nat, n: nat)
    requires n <= |s.pcs| == |w.pcs| == |b.jobs| && t < |s.pcs|
    requires forall u: nat :: u < |s.pcs| && u != t ==> w.pcs[u] == s.pcs[u]
    requires BeforeRoom(w.pcs[t]) ==> BeforeRoom(s.pcs[t])
    ensures Unplaced(b, w, n) +
      (if t < n && BeforeRoom(s.pcs[t]) && !BeforeRoom(w.pcs[t]) then |b.jobs[t].data| else 0) == Unplaced(b, s, n)
  {
    if n > 0 {
      UnplacedFalls(b, s, w, t, n - 1);
    }
  }

  lemma {:induction false} UndrawnHas(s: State, t: nat, n: nat)
    requires t < n <= |s.pcs| && BeforeDraw(s.pcs[t])
    ensures Undrawn(s, n) >= 1
  {
    if t < n - 1 {
      UndrawnHas(s, t, n - 1);
    }
  }

  lemma {:induction false} UnplacedHas(b: Bank, s: State, t: nat, n: nat)
    requires t < n <= |s.pcs| == |b.jobs| && BeforeRoom(s.pcs[t])
    ensures Unplaced(b, s, n) >= |b.jobs[t].data|
  {
    if t < n - 1 {
      UnplacedHas(b, s, t, n - 1);
    }
  }

  /** Ids and bytes drawn, and those that may yet be, are together no more than the calls bring. */
  ghost predicate Budget(b: Bank, s: State) {
    && |s.pcs| == |b.jobs|
    && |s.mem.entries| + Undrawn(s, |b.jobs|) <= |b.jobs|
    && s.mem.cursor + Unplaced(b, s, |b.jobs|) <= Total(b.jobs, |b.jobs|)
  }

  ghost predicate Roomy(b: Bank) {
    |b.jobs| <= b.maxEntries && Total(b.jobs, |b.jobs|) <= b.maxBytes
  }

  ghost predicate NobodyFull(s: State) {
    forall t: nat :: t < |s.pcs| ==> s.pcs[t] != Done(FULL)
  }

  lemma BudgetStep(b: Bank, s: State, t: nat)
    requires Inv(b, s) && Budget(b, s) && t < |b.jobs|
    ensures Budget(b, Step(b, s, t))
  {
    var w := Step(b, s, t);
    assert PcOk(b, s, t);
    UndrawnFalls(s, w, t, |b.jobs|);
    UnplacedFalls(b, s, w, t, |b.jobs|);
  }

  /** -2 is answered only where the ids or the bytes have run out. */
  lemma FullIsSpent(b: Bank, s: State, t: nat)
    requires Inv(b, s) && t < |b.jobs| && !s.pcs[t].Done? && Step(b, s, t).pcs[t] == Done(FULL)
    ensures |s.mem.entries| >= b.maxEntries || s.mem.cursor + |b.jobs[t].data| > b.maxBytes
    ensures |s.mem.entries| < b.maxEntries ==> s.pcs[t].Room?
    ensures BeforeRoom(s.pcs[t]) && (s.pcs[t].Room? ==> s.mem.cursor + |b.jobs[t].data| > b.maxBytes)
  {
    hide Passed;
    assert PcOk(b, s, t);
  }

  lemma NotFullStep(b: Bank, s: State, t: nat)
    requires Inv(b, s) && Budget(b, s) && Roomy(b) && NobodyFull(s) && t < |b.jobs|
    ensures NobodyFull(Step(b, s, t))
  {
    var w := Step(b, s, t);
    if w.pcs[t] == Done(FULL) {
      FullIsSpent(b, s, t);
      UnplacedHas(b, s, t, |b.jobs|);
      if BeforeDraw(s.pcs[t]) {
        UndrawnHas(s, t, |b.jobs|);
      }
      assert false;
    }
    forall u: nat | u < |w.pcs|
      ensures w.pcs[u] != Done(FULL)
    {
      assert u != t ==> w.pcs[u] == s.pcs[u];
    }
  }

  lemma {:induction false} RoomyRun(b: Bank, s: State, schedule: seq<nat>)
    requires Inv(b, s) && Budget(b, s) && Roomy(b) && NobodyFull(s) && Threads(b, schedule)
    ensures NobodyFull(Run(b, s, schedule))
    decreases |schedule|
  {
    if schedule != [] {
      StepKeeps(b, s, schedule[0]);
      BudgetStep(b, s, schedule[0]);
      NotFullStep(b, s, schedule[0]);
      RoomyRun(b, Step(b, s, schedule[0]), schedule[1..]);
    }
  }

  lemma {:induction false} StartBudget(b: Bank, n: nat)
    requires n <= |b.jobs|
    ensures Undrawn(Start(b), n) == n && Unplaced(b, Start(b), n) == Total(b.jobs, n)
  {
    if n > 0 {
      StartBudget(b, n - 1);
    }
  }

  /** A bank with an entry for every call and room for all their bytes answers -2 to nobody, in any interleaving. */
  lemma RoomForAll(b: Bank, schedule: seq<nat>, t: nat)
    requires Threads(b, schedule) && t < |b.jobs|
    requires |b.jobs| <= b.maxEntries && Total(b.jobs, |b.jobs|) <= b.maxBytes
    ensures Run(b, Start(b), schedule).pcs[t] != Done(FULL)
  {
    StartOk(b);
    StartBudget(b, |b.jobs|);
    RoomyRun(b, Start(b), schedule);
  }
}
