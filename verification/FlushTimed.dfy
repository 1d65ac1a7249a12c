/** What the timer is for: everything published when it looked is in the log once its checkpoint has been worked off. */
module FlushTimed {
  import opened CoreIr
  import opened Flush
  import opened FlushRuns
  import opened FlushWorker

  /** The bytes up to byte `to` of generation `gen`, all earlier generations included. */
  function Upto(gens: seq<Gen>, gen: nat, to: nat): Bytes
    requires gen <= |gens| && (gen > 0 ==> to <= |gens[gen - 1].bytes|)
  {
    if gen == 0 then [] else Concat(gens, gen - 1) + gens[gen - 1].bytes[..to]
  }

  predicate Names(gens: seq<Gen>, gen: nat, to: nat, goal: Bytes) {
    gen <= |gens| && (gen > 0 ==> to <= |gens[gen - 1].bytes|) && Upto(gens, gen, to) == goal
  }

  predicate Beyond(m: Mark, gen: nat, to: nat) {
    m.gen > gen || (m.gen == gen && (gen == 0 || m.bytes >= to))
  }

  // ----- what is named stays -----

  lemma GensStay(gens: seq<Gen>, more: seq<Gen>, gen: nat, to: nat, goal: Bytes)
    requires |gens| <= |more| && Names(gens, gen, to, goal)
    requires forall g :: 0 <= g < |gens| ==> gens[g].bytes <= more[g].bytes
    requires forall g :: 0 <= g < |gens| - 1 ==> gens[g].bytes == more[g].bytes
    ensures Names(more, gen, to, goal)
  {
    if gen > 0 {
      ConcatGrown(gens[..gen - 1], more, gen - 1);
      ConcatGrown(gens[..gen - 1], gens, gen - 1);
      assert more[gen - 1].bytes[..to] == gens[gen - 1].bytes[..to];
    }
  }

  lemma NamesStays(s: State, ev: Event, gen: nat, to: nat, goal: Bytes)
    requires Inv(s) && Can(s, ev) && Names(s.gens, gen, to, goal)
    ensures Names(Step(s, ev).gens, gen, to, goal)
  {
    if ev.Advance? {
      LastStored(s);
    }
    if ev.Advance? || ev.Publish? {
      GensStay(s.gens, Step(s, ev).gens, gen, to, goal);
    }
  }

  // ----- a checkpoint on its way -----

  predicate InTimer(s: State, gen: nat, to: nat) {
    s.timer.Some? && s.timer.value.gen == gen && s.timer.value.cursor == to
  }

  /** It is the `k`-th job of the queue. */
  predicate InQueue(s: State, k: nat, gen: nat, to: nat) {
    k < |s.queue| && s.queue[k].Checkpoint? && s.queue[k].gen == gen && s.queue[k].to == to
  }

  lemma TimerHolds(s: State, ev: Event, gen: nat, to: nat)
    requires Can(s, ev) && InTimer(s, gen, to) && !ev.TimerRead?
    ensures if ev.TimerSend? then InQueue(Step(s, ev), |s.queue|, gen, to) else InTimer(Step(s, ev), gen, to)
  {
  }

  /** Jobs leave from the front, one per pop, and the worker's mark is then beyond what the checkpoint asks for. */
  lemma QueueMovesUp(s: State, ev: Event, k: nat, gen: nat, to: nat)
    requires Can(s, ev) && InQueue(s, k, gen, to)
    ensures if !ev.Pop? then InQueue(Step(s, ev), k, gen, to)
            else if k > 0 then InQueue(Step(s, ev), k - 1, gen, to)
            else Beyond(Step(s, ev).mark, gen, to)
  {
  }

  lemma BeyondStays(s: State, ev: Event, gen: nat, to: nat)
    requires Can(s, ev) && Beyond(s.mark, gen, to)
    ensures Beyond(Step(s, ev).mark, gen, to)
  {
  }

  function Pops(events: seq<Event>): nat {
    if events == [] then 0 else (if events[0].Pop? then 1 else 0) + Pops(events[1..])
  }

  lemma {:induction false} BeyondForGood(s: State, events: seq<Event>, gen: nat, to: nat, goal: Bytes)
    requires Inv(s) && BlocksOk(s) && Possible(s, events) && Names(s.gens, gen, to, goal) && Beyond(s.mark, gen, to)
    ensures Names(Run(s, events).gens, gen, to, goal) && Beyond(Run(s, events).mark, gen, to)
    decreases |events|
  {
    hide Inv, BlocksOk, Step, Names, Beyond;
    if events != [] {
      StepKeeps(s, events[0]);
      BlocksStep(s, events[0]);
      NamesStays(s, events[0], gen, to, goal);
      BeyondStays(s, events[0], gen, to);
      BeyondForGood(Step(s, events[0]), events[1..], gen, to, goal);
    }
  }

  lemma {:induction false} WorkedOff(s: State, events: seq<Event>, k: nat, gen: nat, to: nat, goal: Bytes)
    requires Inv(s) && BlocksOk(s) && Possible(s, events) && Names(s.gens, gen, to, goal)
    requires InQueue(s, k, gen, to) && Pops(events) > k
    ensures Names(Run(s, events).gens, gen, to, goal) && Beyond(Run(s, events).mark, gen, to)
    decreases |events|
  {
    hide Inv, BlocksOk, Step, Names, InQueue, Beyond;
    var ev, w := events[0], Step(s, events[0]);
    StepKeeps(s, ev);
    BlocksStep(s, ev);
    NamesStays(s, ev, gen, to, goal);
    QueueMovesUp(s, ev, k, gen, to);
    if !ev.Pop? {
      WorkedOff(w, events[1..], k, gen, to, goal);
    } else if k > 0 {
      WorkedOff(w, events[1..], k - 1, gen, to, goal);
    } else {
      BeyondForGood(w, events[1..], gen, to, goal);
    }
  }

  // ----- what the log then has -----

  lemma {:induction false} ConcatPrefix(gens: seq<Gen>, m: nat, n: nat)
    requires m <= n <= |gens|
    ensures Concat(gens, m) <= Concat(gens, n)
  {
    if m < n {
      ConcatPrefix(gens, m, n - 1);
    }
  }

  lemma UptoInPast(gens: seq<Gen>, gen: nat, to: nat, n: nat)
    requires 0 < gen <= n <= |gens| && to <= |gens[gen - 1].bytes|
    ensures Upto(gens, gen, to) <= Concat(gens, n)
  {
    ConcatPrefix(gens, gen, n);
    assert Upto(gens, gen, to) <= Concat(gens, gen);
  }

  /** A waiting worker whose mark is beyond a checkpoint has logged all that the checkpoint asks for. */
  lemma BeyondIsLogged(s: State, gen: nat, to: nat, goal: Bytes)
    requires Inv(s) && s.worker == Idle && Names(s.gens, gen, to, goal) && Beyond(s.mark, gen, to)
    ensures goal <= s.log
  {
    IdleLog(s);
    if gen > 0 {
      if s.mark.gen > gen {
        UptoInPast(s.gens, gen, to, s.mark.gen - 1);
      } else {
        assert s.gens[gen - 1].bytes[..to] <= s.gens[gen - 1].bytes[..s.mark.bytes];
      }
    }
  }

  // ----- one checkpoint -----

  lemma CommittedKeeps(s: State)
    requires Inv(s) && BlocksOk(s) && Can(s, Pop)
    ensures Inv(Committed(s)) && Committed(s).worker == Idle
    ensures Committed(s).gens == s.gens && Committed(s).mark == Step(s, Pop).mark
  {
    hide Inv, BlocksOk;
    var popped := Step(s, Pop);
    StepKeeps(s, Pop);
    BlocksStep(s, Pop);
    if popped.worker.Reading? {
      StepKeeps(popped, Read);
      BlocksStep(popped, Read);
    }
    var chosen := if popped.worker.Reading? then Step(popped, Read) else popped;
    if chosen.worker.Appending? {
      StepKeeps(chosen, Append);
      BlocksStep(chosen, Append);
    }
    var logged := if chosen.worker.Appending? then Step(chosen, Append) else chosen;
    if logged.worker.Returning? {
      StepKeeps(logged, Return);
    }
  }

  /** A checkpoint that is worked off has its generation's bytes up to its cursor, and all before, in the log. */
  lemma CheckpointCommits(s: State)
    requires Inv(s) && BlocksOk(s) && Can(s, Pop) && s.queue[0].Checkpoint?
    ensures var Checkpoint(gen, _, to) := s.queue[0];
      gen <= |s.gens| && (gen > 0 ==> to <= |s.gens[gen - 1].bytes|) && Upto(s.gens, gen, to) <= Committed(s).log
  {
    hide Committed, Orderly, BlocksOk, Step, Upto;
    var Checkpoint(gen, block, to) := s.queue[0];
    CheckpointNames(s);
    CommittedKeeps(s);
    QueueMovesUp(s, Pop, 0, gen, to);
    BeyondIsLogged(Committed(s), gen, to, Upto(s.gens, gen, to));
  }

  lemma CheckpointNames(s: State)
    requires Orderly(s) && s.queue != [] && s.queue[0].Checkpoint?
    ensures var Checkpoint(gen, _, to) := s.queue[0]; Names(s.gens, gen, to, Upto(s.gens, gen, to))
  {
    hide Upto, WriterOk, MarkOk, WorkerOk;
    assert TripleOk(s.gens, Triple(s.queue[0].block, s.queue[0].to, s.queue[0].gen));
  }

  lemma SealNames(s: State)
    requires Orderly(s) && s.queue != [] && s.queue[0].Seal? && Can(s, Pop)
    ensures var Seal(block, gen, bytes) := s.queue[0];
      && 0 < gen <= |s.gens| && s.gens[gen - 1] == Gen(block, bytes)
      && Names(s.gens, gen, |bytes|, Concat(s.gens, gen)) && Beyond(Step(s, Pop).mark, gen, |bytes|)
  {
    hide WriterOk, MarkOk, WorkerOk;
    var bytes := s.queue[0].bytes;
    assert bytes[..|bytes|] == bytes;
  }

  lemma SealReturns(s: State)
    requires Can(s, Pop) && s.queue[0].Seal?
    ensures s.queue[0].block in Committed(s).pool
  {
  }

  /** A seal that is worked off has its whole generation, and all before, in the log. */
  lemma SealCommits(s: State)
    requires Inv(s) && BlocksOk(s) && Can(s, Pop) && s.queue[0].Seal?
    ensures var Seal(block, gen, bytes) := s.queue[0];
      && 0 < gen <= |s.gens| && s.gens[gen - 1] == Gen(block, bytes)
      && Concat(s.gens, gen) <= Committed(s).log && block in Committed(s).pool
  {
    var Seal(block, gen, bytes) := s.queue[0];
    SealNames(s);
    SealReturns(s);
    hide Committed, Inv, BlocksOk, Step;
    CommittedKeeps(s);
    BeyondIsLogged(Committed(s), gen, |bytes|, Concat(s.gens, gen));
  }

  // ----- the timer's promise, over whole runs -----

  /** The register shows the newest generation and all that is published of it. */
  predicate ShowsAll(s: State) {
    if s.gens == [] then s.published.gen == 0
    else s.published.gen == |s.gens| && s.published.cursor == |Last(s).bytes|
  }

  lemma {:induction false} RunShowsAll(s: State, events: seq<Event>)
    requires ShowsAll(s) && Possible(s, events)
    ensures ShowsAll(Run(s, events))
    decreases |events|
  {
    if events != [] {
      RunShowsAll(Step(s, events[0]), events[1..]);
    }
  }

  lemma {:induction false} RunConcat(s: State, a: seq<Event>, c: seq<Event>)
    requires Possible(s, a + c)
    ensures Possible(s, a) && Possible(Run(s, a), c) && Run(s, a + c) == Run(Run(s, a), c)
    decreases |a|
  {
    if a == [] {
      assert a + c == c;
    } else {
      assert (a + c)[1..] == a[1..] + c && (a + c)[0] == a[0];
      RunConcat(Step(s, a[0]), a[1..], c);
    }
  }

  predicate NoTimer(events: seq<Event>) {
    forall i :: 0 <= i < |events| ==> !events[i].TimerRead? && !events[i].TimerSend?
  }

  lemma {:induction false} TimerHoldsOn(s: State, events: seq<Event>, gen: nat, to: nat, goal: Bytes)
    requires Inv(s) && BlocksOk(s) && Possible(s, events) && NoTimer(events)
    requires InTimer(s, gen, to) && Names(s.gens, gen, to, goal)
    ensures InTimer(Run(s, events), gen, to) && Names(Run(s, events).gens, gen, to, goal)
    decreases |events|
  {
    hide Inv, BlocksOk, Step, Names, InTimer;
    if events != [] {
      StepKeeps(s, events[0]);
      BlocksStep(s, events[0]);
      NamesStays(s, events[0], gen, to, goal);
      TimerHolds(s, events[0], gen, to);
      TimerHoldsOn(Step(s, events[0]), events[1..], gen, to, goal);
    }
  }

  /** What the timer reads names everything published. */
  lemma ReadNamesPublished(s: State)
    requires Inv(s) && ShowsAll(s)
    ensures Names(s.gens, s.published.gen, s.published.cursor, Published(s))
  {
    if s.gens != [] {
      assert Last(s).bytes[..|Last(s).bytes|] == Last(s).bytes;
    }
  }

  lemma OneStep(s: State, ev: Event)
    requires Possible(s, [ev])
    ensures Can(s, ev) && Run(s, [ev]) == Step(s, ev)
  {
    assert [ev][1..] == [];
    assert Run(s, [ev]) == Run(Step(s, ev), []);
  }

  /**
   * The timed flush: once the timer has looked and sent, and the worker has taken as many jobs as were then queued and
   * one more and waits again, everything that was sent before the timer looked is in the log.
   */
  lemma TimedFlush(before: seq<Event>, between: seq<Event>, after: seq<Event>)
    requires var events := before + ([TimerRead] + (between + ([TimerSend] + after))); Possible(Start(), events)
    requires NoTimer(between)
    ensures Possible(Start(), before + ([TimerRead] + between))
    ensures var events := before + ([TimerRead] + (between + ([TimerSend] + after)));
      Pops(after) > |Run(Start(), before + ([TimerRead] + between)).queue| && Run(Start(), events).worker == Idle ==>
        Sent(before, []) <= Run(Start(), events).log
  {
    var last := [TimerSend] + after;
    var middle := [TimerRead] + (between + last);
    var s0 := Start();
    RunConcat(s0, before, middle);
    var s1 := Run(s0, before);
    RunConcat(s1, [TimerRead], between + last);
    OneStep(s1, TimerRead);
    var s2 := Step(s1, TimerRead);
    RunConcat(s2, between, last);
    var s3 := Run(s2, between);
    RunConcat(s3, [TimerSend], after);
    OneStep(s3, TimerSend);
    var s4 := Step(s3, TimerSend);
    assert before + middle == (before + ([TimerRead] + between)) + last;
    RunConcat(s0, before + ([TimerRead] + between), last);
    RunConcat(s0, before, [TimerRead] + between);
    RunConcat(s1, [TimerRead], between);
    Promise(before, s1, s2, between, s3, s4, after);
  }

  /** Reading the register puts everything sent so far into the timer's hands. */
  lemma ReadTakesAll(before: seq<Event>)
    requires Possible(Start(), before)
    ensures var s := Run(Start(), before); var w := Step(s, TimerRead);
      && Inv(w) && BlocksOk(w) && InTimer(w, s.published.gen, s.published.cursor)
      && Names(w.gens, s.published.gen, s.published.cursor, Sent(before, []))
  {
    var s := Run(Start(), before);
    StartOk();
    RunKeeps(Start(), before);
    RunShowsAll(Start(), before);
    PublishesSent(Start(), before);
    assert Published(Start()) + Sent(before, []) == Sent(before, []);
    hide Inv, BlocksOk, Names, ShowsAll, Published;
    ReadNamesPublished(s);
    StepKeeps(s, TimerRead);
    BlocksStep(s, TimerRead);
  }

  lemma Promise(before: seq<Event>, s1: State, s2: State, between: seq<Event>, s3: State, s4: State, after: seq<Event>)
    requires Possible(Start(), before) && s1 == Run(Start(), before) && s2 == Step(s1, TimerRead)
    requires Possible(s2, between) && NoTimer(between) && s3 == Run(s2, between)
    requires Can(s3, TimerSend) && s4 == Step(s3, TimerSend) && Possible(s4, after)
    ensures Pops(after) > |s3.queue| && Run(s4, after).worker == Idle ==> Sent(before, []) <= Run(s4, after).log
  {
    hide Inv, BlocksOk, Names, InTimer, InQueue, Beyond, Step, Sent;
    var gen, to, goal := s1.published.gen, s1.published.cursor, Sent(before, []);
    ReadTakesAll(before);
    TimerHoldsOn(s2, between, gen, to, goal);
    RunKeeps(s2, between);
    StepKeeps(s3, TimerSend);
    BlocksStep(s3, TimerSend);
    TimerHolds(s3, TimerSend, gen, to);
    NamesStays(s3, TimerSend, gen, to, goal);
    if Pops(after) > |s3.queue| {
      WorkedOff(s4, after, |s3.queue|, gen, to, goal);
      RunKeeps(s4, after);
      if Run(s4, after).worker == Idle {
        BeyondIsLogged(Run(s4, after), gen, to, goal);
      }
    }
  }

  // ----- the worker gets there -----

  /** The steps that work off the first job. */
  function CommitSteps(s: State): seq<Event>
    requires Can(s, Pop)
  {
    var popped := Step(s, Pop);
    if popped.worker.Reading? then [Pop, Read, Append]
    else if popped.worker.Appending? then [Pop, Append, Return] else [Pop]
  }

  lemma CommitStepsDo(s: State)
    requires Can(s, Pop)
    ensures Possible(s, CommitSteps(s)) && Run(s, CommitSteps(s)) == Committed(s) && Pops(CommitSteps(s)) == 1
    ensures Committed(s).worker == Idle && Committed(s).queue == s.queue[1..]
  {
    var popped := Step(s, Pop);
    if popped.worker.Reading? {
      ThreeSteps(s, Pop, Read, Append);
    } else if popped.worker.Appending? {
      ThreeSteps(s, Pop, Append, Return);
    } else {
      OneStep(s, Pop);
    }
  }

  lemma Cons(s: State, x: Event, rest: seq<Event>)
    requires Can(s, x) && Possible(Step(s, x), rest)
    ensures Possible(s, [x] + rest) && Run(s, [x] + rest) == Run(Step(s, x), rest)
    ensures Pops([x] + rest) == (if x.Pop? then 1 else 0) + Pops(rest)
  {
    assert ([x] + rest)[1..] == rest;
  }

  lemma ThreeSteps(s: State, x: Event, y: Event, z: Event)
    requires Can(s, x) && Can(Step(s, x), y) && Can(Step(Step(s, x), y), z)
    ensures Possible(s, [x, y, z]) && Run(s, [x, y, z]) == Step(Step(Step(s, x), y), z)
    ensures Pops([x, y, z]) == (if x.Pop? then 1 else 0) + (if y.Pop? then 1 else 0) + (if z.Pop? then 1 else 0)
  {
    Cons(Step(Step(s, x), y), z, []);
    Cons(Step(s, x), y, [z]);
    Cons(s, x, [y, z]);
    assert [z] + [] == [z] && [y] + [z] == [y, z] && [x] + [y, z] == [x, y, z];
  }

  lemma {:induction false} Appended(s: State, a: seq<Event>, c: seq<Event>)
    requires Possible(s, a) && Possible(Run(s, a), c)
    ensures Possible(s, a + c) && Run(s, a + c) == Run(Run(s, a), c) && Pops(a + c) == Pops(a) + Pops(c)
    decreases |a|
  {
    if a == [] {
      assert a + c == c;
    } else {
      assert (a + c)[1..] == a[1..] + c && (a + c)[0] == a[0];
      Appended(Step(s, a[0]), a[1..], c);
    }
  }

  /** A waiting worker can work off the whole queue by itself. */
  lemma {:induction false} Drains(s: State) returns (events: seq<Event>)
    requires s.worker == Idle
    ensures Possible(s, events) && Pops(events) == |s.queue|
    ensures Run(s, events).worker == Idle && Run(s, events).queue == []
    decreases |s.queue|
  {
    events := [];
    if s.queue != [] {
      CommitStepsDo(s);
      var rest := Drains(Committed(s));
      Appended(s, CommitSteps(s), rest);
      events := CommitSteps(s) + rest;
    }
  }
}
