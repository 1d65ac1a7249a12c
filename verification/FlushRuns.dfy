/** Every run of writer, timer, worker and allocator keeps the flush in order. */
module FlushRuns {
  import opened CoreIr
  import opened Counting
  import opened Flush

  // ----- blocks go round -----

  lemma MintMoves(s: State, ev: Event, x: nat)
    requires Can(s, ev) && ev.Mint?
    ensures Places(Step(s, ev), x) == Places(s, x) + (if ev.block == x then 1 else 0)
  {
    CountPush(s.pool, ev.block, x);
    assert WriterBlocks(Step(s, ev)) == WriterBlocks(s);
  }

  lemma TakeMoves(s: State, x: nat)
    requires Can(s, Take)
    ensures Places(Step(s, Take), x) == Places(s, x)
  {
    CountHead(s.pool, x);
    CountOne(s.pool[0], x);
  }

  lemma ReturnMoves(s: State, x: nat)
    requires Can(s, Return)
    ensures Places(Step(s, Return), x) == Places(s, x)
  {
    CountPush(s.pool, s.worker.block, x);
    CountOne(s.worker.block, x);
    assert WriterBlocks(Step(s, Return)) == WriterBlocks(s);
  }

  lemma SealMoves(s: State, x: nat)
    requires Can(s, SealBlock)
    ensures Places(Step(s, SealBlock), x) == Places(s, x)
  {
    var w, block := Step(s, SealBlock), Last(s).block;
    var job := w.queue[|s.queue|];
    assert job.Seal? && job.block == block && w.queue == s.queue + [job];
    QueuedCount(s.queue, job, x);
    assert WriterBlocks(s) == [block] && WriterBlocks(w) == [];
    CountOne(block, x);
    assert w.pool == s.pool && WorkerBlocks(w) == WorkerBlocks(s);
  }

  lemma SendMoves(s: State, x: nat)
    requires Can(s, TimerSend)
    ensures Places(Step(s, TimerSend), x) == Places(s, x)
  {
    var w := Step(s, TimerSend);
    var job := w.queue[|s.queue|];
    assert job.Checkpoint? && w.queue == s.queue + [job];
    QueuedCount(s.queue, job, x);
    assert w.pool == s.pool && WriterBlocks(w) == WriterBlocks(s) && WorkerBlocks(w) == WorkerBlocks(s);
  }

  lemma PopMoves(s: State, x: nat)
    requires Can(s, Pop)
    ensures Places(Step(s, Pop), x) == Places(s, x)
  {
    QueuedHead(s.queue, x);
    if s.queue[0].Seal? {
      CountOne(s.queue[0].block, x);
    }
    assert WriterBlocks(Step(s, Pop)) == WriterBlocks(s);
  }

  /** No step makes or loses a place; minting makes one. */
  lemma PlacesConserved(s: State, ev: Event, x: nat)
    requires Can(s, ev)
    ensures Places(Step(s, ev), x) == Places(s, x) + (if ev.Mint? && ev.block == x then 1 else 0)
  {
    var w := Step(s, ev);
    match ev
    case Mint(_, _) => MintMoves(s, ev, x);
    case Take => TakeMoves(s, x);
    case Return => ReturnMoves(s, x);
    case SealBlock => SealMoves(s, x);
    case TimerSend => SendMoves(s, x);
    case Pop => PopMoves(s, x);
    case _ => assert WriterBlocks(w) == WriterBlocks(s) && WorkerBlocks(w) == WorkerBlocks(s);
  }

  lemma MemoryBlocks(s: State, ev: Event, x: nat)
    requires Can(s, ev)
    ensures x in Step(s, ev).memory <==> x in s.memory || (ev.Mint? && ev.block == x)
  {
  }

  lemma BlocksStep(s: State, ev: Event)
    requires BlocksOk(s) && Can(s, ev)
    ensures BlocksOk(Step(s, ev))
  {
    forall x: nat
      ensures Places(Step(s, ev), x) == (if x in Step(s, ev).memory then 1 else 0)
    {
      PlacesConserved(s, ev, x);
      MemoryBlocks(s, ev, x);
    }
  }

  // ----- the allocator and the pool -----

  lemma StoredStays(s: State, w: State)
    requires AllStored(s) && s.popped <= w.popped && w.gens == s.gens && w.memory == s.memory
    ensures AllStored(w)
  {
  }

  /** What changes memory, the pool, the writer's own state or the timer's copy leaves what the others know. */
  lemma SameProtocol(s: State, w: State)
    requires Orderly(s) && WriterOk(w) && SealedCount(w) == SealedCount(s)
    requires w == s.(memory := w.memory, pool := w.pool, writer := w.writer, timer := w.timer)
    requires w.timer.Some? ==> TripleOk(s.gens, w.timer.value)
    ensures Orderly(w) && InFlight(w) == InFlight(s)
  {
  }

  lemma MintKeeps(s: State, block: nat, content: Bytes)
    requires Inv(s) && Can(s, Mint(block, content))
    ensures Inv(Step(s, Mint(block, content)))
  {
    var w := Step(s, Mint(block, content));
    SameProtocol(s, w);
    assert AllStored(w) by {
      forall g | w.popped <= g < |w.gens|
        ensures Stored(w.memory, w.gens[g])
      {
        assert Stored(s.memory, s.gens[g]);
      }
    }
  }

  lemma TakeKeeps(s: State)
    requires Inv(s) && Can(s, Take)
    ensures Inv(Step(s, Take))
  {
    var w := Step(s, Take);
    SameProtocol(s, w);
    assert AllStored(w) by {
      StoredStays(s, w);
    }
  }

  lemma ReturnKeeps(s: State)
    requires Inv(s) && Can(s, Return)
    ensures Inv(Step(s, Return))
  {
    var w := Step(s, Return);
    assert AllStored(w) by {
      StoredStays(s, w);
    }
  }

  // ----- the writer -----

  /** What grows the generations keeps the queue, the triples, the watermark and the log. */
  lemma GrownKeeps(s: State, w: State)
    requires Inv(s) && Grown(s.gens, w.gens, SealedCount(s)) && SealedCount(w) == SealedCount(s) && WriterOk(w)
    requires w.queue == s.queue && w.timer == s.timer && w.mark == s.mark && w.worker == s.worker &&
      w.popped == s.popped
    requires w.log == s.log && TripleOk(w.gens, w.published)
    ensures Orderly(w) && w.log + InFlight(w) == Tracked(w.gens, w.mark)
  {
    var sealed := SealedCount(s);
    QueueCounts(s.gens, s.queue, s.popped, sealed);
    QueueGrown(s.gens, w.gens, s.queue, s.popped, sealed);
    if s.timer.Some? {
      TripleGrown(s.gens, w.gens, sealed, s.timer.value);
    }
    TrackedGrown(s.gens, w.gens, sealed, s.popped, s.mark);
    InFlightGrown(s, w, sealed);
  }

  lemma TookIsMinted(s: State)
    requires BlocksOk(s) && s.writer.Took?
    ensures s.writer.block in s.memory
  {
    CountOne(s.writer.block, s.writer.block);
    assert Places(s, s.writer.block) >= 1;
  }

  lemma PublishStores(s: State)
    requires AllStored(s) && BlocksOk(s) && Can(s, Publish)
    ensures AllStored(Step(s, Publish))
  {
    var w := Step(s, Publish);
    TookIsMinted(s);
    forall g | w.popped <= g < |w.gens|
      ensures Stored(w.memory, w.gens[g])
    {
      assert g < |s.gens| ==> w.gens[g] == s.gens[g];
    }
  }

  lemma PublishKeeps(s: State)
    requires Inv(s) && BlocksOk(s) && Can(s, Publish)
    ensures Inv(Step(s, Publish))
  {
    var w := Step(s, Publish);
    assert Last(w).block == s.writer.block;
    GrownKeeps(s, w);
    PublishStores(s);
  }

  /** A generation whose seal is queued has its block among the queued ones. */
  lemma {:induction false} GenIsQueued(gens: seq<Gen>, queue: seq<Job>, popped: nat, sealed: nat, g: nat)
    requires QueueOk(gens, queue, popped, sealed) && popped <= g < sealed && g < |gens|
    ensures Count(QueuedBlocks(queue), gens[g].block) >= 1
    decreases |queue|
  {
    QueuedHead(queue, gens[g].block);
    if queue[0].Checkpoint? {
      GenIsQueued(gens, queue[1..], popped, sealed, g);
    } else if g > popped {
      GenIsQueued(gens, queue[1..], popped + 1, sealed, g);
    }
  }

  /** A generation waiting for its seal to be popped is not in the writer's block. */
  lemma QueuedElsewhere(s: State, g: nat)
    requires (s.writer.Active? || s.writer.Wrote?) && s.popped <= g < |s.gens| - 1
    requires QueueOk(s.gens, s.queue, s.popped, SealedCount(s)) && Places(s, Last(s).block) <= 1
    ensures s.gens[g].block != Last(s).block
  {
    GenIsQueued(s.gens, s.queue, s.popped, SealedCount(s), g);
    CountOne(Last(s).block, Last(s).block);
  }

  lemma SliceOfOverwrite(content: Bytes, at: nat, data: Bytes)
    requires at + |data| <= |content|
    ensures |Overwrite(content, at, data)| == |content| && Overwrite(content, at, data)[..at] == content[..at]
  {
  }

  lemma WriteStores(s: State, data: Bytes, g: nat)
    requires Inv(s) && BlocksOk(s) && Can(s, Write(data)) && s.popped <= g < |s.gens|
    ensures Stored(Step(s, Write(data)).memory, s.gens[g])
  {
    var last := Last(s);
    assert Stored(s.memory, s.gens[g]);
    if g < |s.gens| - 1 {
      assert Places(s, last.block) <= 1;
      QueuedElsewhere(s, g);
    } else {
      SliceOfOverwrite(s.memory[last.block], |last.bytes|, data);
    }
  }

  lemma WriteKeeps(s: State, data: Bytes)
    requires Inv(s) && BlocksOk(s) && Can(s, Write(data))
    ensures Inv(Step(s, Write(data)))
  {
    hide BlocksOk;
    var w := Step(s, Write(data));
    SameProtocol(s, w);
    assert AllStored(w) by {
      forall g | w.popped <= g < |w.gens|
        ensures Stored(w.memory, w.gens[g])
      {
        WriteStores(s, data, g);
      }
    }
  }

  lemma LastStored(s: State)
    requires Inv(s) && (s.writer.Active? || s.writer.Wrote?)
    ensures s.gens != [] && Stored(s.memory, s.gens[|s.gens| - 1])
  {
    QueueCounts(s.gens, s.queue, s.popped, SealedCount(s));
  }

  lemma AdvanceKeeps(s: State)
    requires Inv(s) && Can(s, Advance)
    ensures Inv(Step(s, Advance))
  {
    var w, g := Step(s, Advance), Last(s);
    var last := |s.gens| - 1;
    LastStored(s);
    var more := s.memory[g.block][..|g.bytes| + s.writer.n];
    assert more[..|g.bytes|] == s.memory[g.block][..|g.bytes|];
    assert w.gens[last] == Gen(g.block, more);
    forall i | 0 <= i < |s.gens|
      ensures GenGrown(s.gens[i], w.gens[i])
    {
    }
    GrownKeeps(s, w);
    assert AllStored(w) by {
      forall i | w.popped <= i < |w.gens|
        ensures Stored(w.memory, w.gens[i])
      {
        assert Stored(s.memory, s.gens[i]);
      }
    }
  }

  /** What the queue gains leaves what the others know. */
  lemma QueueProtocol(s: State, w: State, job: Job)
    requires Orderly(s) && WriterOk(w) && w == s.(queue := s.queue + [job], writer := w.writer, timer := w.timer)
    requires QueueOk(s.gens, [job], SealedCount(s), SealedCount(w))
    requires w.timer.Some? ==> TripleOk(s.gens, w.timer.value)
    ensures Orderly(w) && InFlight(w) == InFlight(s)
  {
    QueueAppends(s.gens, s.queue, job, s.popped, SealedCount(s), SealedCount(w));
  }

  lemma SealKeeps(s: State)
    requires Inv(s) && Can(s, SealBlock)
    ensures Inv(Step(s, SealBlock))
  {
    var w, g := Step(s, SealBlock), Last(s);
    LastStored(s);
    var job := Seal(g.block, |s.gens|, g.bytes);
    assert QueueOk(s.gens, [job], |s.gens| - 1, |s.gens|) by {
      assert [job][1..] == [];
    }
    QueueProtocol(s, w, job);
    assert AllStored(w) by {
      StoredStays(s, w);
    }
  }

  // ----- the timer -----

  lemma TimerReadKeeps(s: State)
    requires Inv(s)
    ensures Inv(Step(s, TimerRead))
  {
    var w := Step(s, TimerRead);
    SameProtocol(s, w);
    assert AllStored(w) by {
      StoredStays(s, w);
    }
  }

  lemma TimerSendKeeps(s: State)
    requires Inv(s) && Can(s, TimerSend)
    ensures Inv(Step(s, TimerSend))
  {
    var w, t := Step(s, TimerSend), s.timer.value;
    var job := Checkpoint(t.gen, t.block, t.cursor);
    assert QueueOk(s.gens, [job], SealedCount(s), SealedCount(s)) by {
      assert [job][1..] == [];
    }
    QueueProtocol(s, w, job);
    assert AllStored(w) by {
      StoredStays(s, w);
    }
  }

  // ----- the worker -----

  /** A whole generation accounted for is a generation more in the sequence. */
  lemma TrackedWhole(gens: seq<Gen>, m: Mark)
    requires 0 < m.gen <= |gens| && m.bytes == |gens[m.gen - 1].bytes|
    ensures Tracked(gens, m) == Concat(gens, m.gen)
  {
    assert gens[m.gen - 1].bytes[..m.bytes] == gens[m.gen - 1].bytes;
  }

  /** What a job commits is what the watermark gains. */
  lemma ReconcileGains(gens: seq<Gen>, m: Mark, popped: nat, gen: nat, to: nat)
    requires MarkOk(gens, m, popped) && gen == popped + 1 <= |gens| && to <= |gens[gen - 1].bytes|
    ensures var (w, from) := Reconcile(m, gen, to);
      && (w.gen == gen && w.bytes <= |gens[gen - 1].bytes| && to <= w.bytes)
      && (from.Some? ==> from.value <= to == w.bytes)
      && Tracked(gens, w) == Tracked(gens, m) + (if from.Some? then gens[gen - 1].bytes[from.value..to] else [])
  {
    var (w, from) := Reconcile(m, gen, to);
    var bytes := gens[gen - 1].bytes;
    if m.gen == gen {
      if from.Some? {
        assert bytes[..to] == bytes[..m.bytes] + bytes[m.bytes..to];
        assert Concat(gens, gen - 1) + bytes[..to] == Concat(gens, gen - 1) + bytes[..m.bytes] + bytes[m.bytes..to];
      }
    } else {
      if m.gen > 0 {
        TrackedWhole(gens, m);
      }
      assert bytes[0..to] == bytes[..to];
    }
  }

  /** What is left to append of a job's bytes. */
  function Left(bytes: Bytes, from: Option<nat>): Bytes {
    if from.Some? && from.value <= |bytes| then bytes[from.value..] else []
  }

  /** What is left of a sealed block goes to the log, and the watermark then covers the whole of it. */
  lemma SealGains(gens: seq<Gen>, m: Mark, popped: nat, gen: nat, bytes: Bytes)
    requires MarkOk(gens, m, popped) && gen == popped + 1 <= |gens| && gens[gen - 1].bytes == bytes
    ensures var (w, from) := Reconcile(m, gen, |bytes|);
      && MarkOk(gens, w, gen)
      && Tracked(gens, w) ==
         Tracked(gens, m) + Left(bytes, from)
  {
    ReconcileGains(gens, m, popped, gen, |bytes|);
    var (w, from) := Reconcile(m, gen, |bytes|);
    if from.Some? {
      assert bytes[from.value..|bytes|] == bytes[from.value..];
    }
  }

  /** What popping a job leaves: the rest of the queue, the new mark, and the worker's next step. */
  lemma PopProtocol(s: State, w: State)
    requires Orderly(s) && w == s.(queue := w.queue, mark := w.mark, popped := w.popped, worker := w.worker)
    requires QueueOk(s.gens, w.queue, w.popped, SealedCount(s)) && MarkOk(s.gens, w.mark, w.popped) && WorkerOk(w)
    ensures Orderly(w)
  {
  }

  lemma PopSealOrderly(s: State)
    requires Orderly(s) && Can(s, Pop) && s.queue[0].Seal?
    ensures Orderly(Step(s, Pop))
  {
    var Seal(block, gen, bytes) := s.queue[0];
    assert MarkOk(s.gens, Step(s, Pop).mark, s.popped + 1) by {
      SealGains(s.gens, s.mark, s.popped, gen, bytes);
    }
    PopProtocol(s, Step(s, Pop));
  }

  lemma PoppedSeal(s: State)
    requires Can(s, Pop) && s.queue[0].Seal?
    ensures var w, (mark, from) := Step(s, Pop), Reconcile(s.mark, s.queue[0].gen, |s.queue[0].bytes|);
      w.mark == mark && InFlight(w) == Left(s.queue[0].bytes, from) && s.log + InFlight(s) == s.log
  {
    assert s.log + [] == s.log;
  }

  lemma PopSealLogs(s: State)
    requires Orderly(s) && Can(s, Pop) && s.queue[0].Seal? && s.log + InFlight(s) == Tracked(s.gens, s.mark)
    requires MarkOk(s.gens, Step(s, Pop).mark, s.popped + 1)
    ensures s.log + InFlight(Step(s, Pop)) == Tracked(s.gens, Step(s, Pop).mark)
  {
    SealGains(s.gens, s.mark, s.popped, s.queue[0].gen, s.queue[0].bytes);
    PoppedSeal(s);
  }

  lemma PopSealKeeps(s: State)
    requires Inv(s) && Can(s, Pop) && s.queue[0].Seal?
    ensures Inv(Step(s, Pop))
  {
    var w := Step(s, Pop);
    PopSealOrderly(s);
    PopSealLogs(s);
    assert AllStored(w) by {
      StoredStays(s, w);
    }
  }

  /** A checkpoint that has something to commit is for the generation whose seal is the next to come. */
  lemma CheckpointIsCurrent(s: State)
    requires Orderly(s) && Can(s, Pop) && s.queue[0].Checkpoint?
    ensures var Checkpoint(gen, block, to) := s.queue[0];
      (Reconcile(s.mark, gen, to).1.Some? || gen > s.mark.gen) ==>
        gen == s.popped + 1 <= |s.gens| && block == s.gens[gen - 1].block && to <= |s.gens[gen - 1].bytes|
  {
  }

  lemma PopCheckpointOrderly(s: State)
    requires Orderly(s) && Can(s, Pop) && s.queue[0].Checkpoint?
    ensures Orderly(Step(s, Pop))
  {
    var w := Step(s, Pop);
    var Checkpoint(gen, block, to) := s.queue[0];
    assert MarkOk(s.gens, w.mark, s.popped) && WorkerOk(w) by {
      CheckpointIsCurrent(s);
      if Reconcile(s.mark, gen, to).1.Some? || gen > s.mark.gen {
        ReconcileGains(s.gens, s.mark, s.popped, gen, to);
      }
    }
    PopProtocol(s, w);
  }

  lemma PopCheckpointLogs(s: State)
    requires Orderly(s) && Can(s, Pop) && s.queue[0].Checkpoint? && s.log + InFlight(s) == Tracked(s.gens, s.mark)
    requires MarkOk(s.gens, Step(s, Pop).mark, s.popped)
    ensures s.log + InFlight(Step(s, Pop)) == Tracked(s.gens, Step(s, Pop).mark)
  {
    var Checkpoint(gen, block, to) := s.queue[0];
    CheckpointIsCurrent(s);
    if Reconcile(s.mark, gen, to).1.Some? || gen > s.mark.gen {
      ReconcileGains(s.gens, s.mark, s.popped, gen, to);
    }
    assert s.log + InFlight(s) == s.log;
  }

  lemma PopCheckpointKeeps(s: State)
    requires Inv(s) && Can(s, Pop) && s.queue[0].Checkpoint?
    ensures Inv(Step(s, Pop))
  {
    var w := Step(s, Pop);
    var Checkpoint(gen, block, to) := s.queue[0];
    PopCheckpointOrderly(s);
    PopCheckpointLogs(s);
    assert AllStored(w) by {
      StoredStays(s, w);
    }
  }

  /** The block of a generation whose seal is still to be popped is not in the pool. */
  lemma NotInPool(s: State, g: nat)
    requires QueueOk(s.gens, s.queue, s.popped, SealedCount(s)) && s.popped <= g < |s.gens|
    requires Places(s, s.gens[g].block) <= 1
    ensures Count(s.pool, s.gens[g].block) == 0
  {
    if g < SealedCount(s) {
      GenIsQueued(s.gens, s.queue, s.popped, SealedCount(s), g);
    } else {
      CountOne(s.gens[g].block, s.gens[g].block);
    }
  }

  lemma StoredSlice(memory: map<nat, Bytes>, gen: Gen, from: nat, to: nat)
    requires Stored(memory, gen) && from <= to <= |gen.bytes|
    ensures Slice(memory, gen.block, from, to) == gen.bytes[from..to]
  {
    SubSlice(memory[gen.block], |gen.bytes|, from, to);
  }

  /** A checkpoint reads its block while the block still belongs to its generation: it gets that generation's bytes. */
  lemma ReadsOwnGeneration(s: State)
    requires Inv(s) && BlocksOk(s) && s.worker.Reading?
    ensures var Reading(gen, block, from, to) := s.worker;
      && s.popped < gen <= |s.gens| && block == s.gens[gen - 1].block && from <= to <= |s.gens[gen - 1].bytes|
      && Count(s.pool, block) == 0
      && Slice(s.memory, block, from, to) == s.gens[gen - 1].bytes[from..to]
  {
    var Reading(gen, block, from, to) := s.worker;
    var g := gen - 1;
    NotInPool(s, g);
    StoredSlice(s.memory, s.gens[g], from, to);
  }

  lemma WorkerProtocol(s: State, w: State)
    requires Orderly(s) && WorkerOk(w) && w == s.(worker := w.worker, log := w.log)
    ensures Orderly(w)
  {
  }

  lemma ReadKeeps(s: State)
    requires Inv(s) && BlocksOk(s) && Can(s, Read)
    ensures Inv(Step(s, Read))
  {
    var w := Step(s, Read);
    assert InFlight(w) == InFlight(s) by {
      ReadsOwnGeneration(s);
    }
    WorkerProtocol(s, w);
    assert AllStored(w) by {
      StoredStays(s, w);
    }
  }

  lemma AppendKeeps(s: State)
    requires Inv(s) && Can(s, Append)
    ensures Inv(Step(s, Append))
  {
    var w := Step(s, Append);
    assert w.log + InFlight(w) == s.log + InFlight(s);
    WorkerProtocol(s, w);
    assert AllStored(w) by {
      StoredStays(s, w);
    }
  }

  // ----- whole runs -----

  /**
   * The writer is never held up by its own block: it can publish what it wrote, write where there is room, and seal.
   */
  lemma WriterGoesOn(s: State, data: Bytes)
    requires Inv(s)
    ensures s.writer.Wrote? ==> Can(s, Advance)
    ensures s.writer == Active ==> Can(s, SealBlock) && Last(s).block in s.memory
    ensures s.writer == Active && |Last(s).bytes| + |data| <= |s.memory[Last(s).block]| ==> Can(s, Write(data))
  {
    if s.writer.Active? || s.writer.Wrote? {
      LastStored(s);
    }
  }

  lemma StepKeeps(s: State, ev: Event)
    requires Inv(s) && BlocksOk(s) && Can(s, ev)
    ensures Inv(Step(s, ev))
  {
    match ev
    case Mint(block, content) => MintKeeps(s, block, content);
    case Take => TakeKeeps(s);
    case Publish => PublishKeeps(s);
    case Write(data) => WriteKeeps(s, data);
    case Advance => AdvanceKeeps(s);
    case SealBlock => SealKeeps(s);
    case TimerRead => TimerReadKeeps(s);
    case TimerSend => TimerSendKeeps(s);
    case Pop =>
      if s.queue[0].Seal? {
        PopSealKeeps(s);
      } else {
        PopCheckpointKeeps(s);
      }
    case Read => ReadKeeps(s);
    case Append => AppendKeeps(s);
    case Return => ReturnKeeps(s);
  }

  predicate Possible(s: State, events: seq<Event>)
    decreases |events|
  {
    events == [] || (Can(s, events[0]) && Possible(Step(s, events[0]), events[1..]))
  }

  function Run(s: State, events: seq<Event>): State
    requires Possible(s, events)
    decreases |events|
  {
    if events == [] then s else Run(Step(s, events[0]), events[1..])
  }

  lemma {:induction false} RunKeeps(s: State, events: seq<Event>)
    requires Inv(s) && BlocksOk(s) && Possible(s, events)
    ensures Inv(Run(s, events)) && BlocksOk(Run(s, events))
    decreases |events|
  {
    if events != [] {
      StepKeeps(s, events[0]);
      BlocksStep(s, events[0]);
      RunKeeps(Step(s, events[0]), events[1..]);
    }
  }

  lemma StartOk()
    ensures Inv(Start()) && BlocksOk(Start())
  {
  }

  /** The log is the past generations in order, then the tracked prefix of the current one. */
  predicate Durable(s: State) {
    && s.mark.gen <= |s.gens| && s.popped <= s.mark.gen
    && if s.mark.gen == 0 then s.log == [] else
         var current := s.gens[s.mark.gen - 1].bytes;
         s.mark.bytes <= |current| && s.log == Concat(s.gens, s.mark.gen - 1) + current[..s.mark.bytes]
  }

  lemma IdleLog(s: State)
    requires Inv(s) && s.worker == Idle
    ensures Durable(s)
  {
    assert s.log + [] == s.log;
  }

  /**
   * Whenever the worker is waiting, the log is the past generations in order and then the tracked prefix of the current
   * one: no byte lost, repeated or out of order, however checkpoints and seals interleave.
   */
  lemma ExactlyOnce(events: seq<Event>)
    requires Possible(Start(), events) && Run(Start(), events).worker == Idle
    ensures Durable(Run(Start(), events))
  {
    StartOk();
    RunKeeps(Start(), events);
    IdleLog(Run(Start(), events));
  }

  // ----- what was written -----

  /** From the events alone: the data of every write whose cursor was then advanced, in order. */
  function Sent(events: seq<Event>, pending: Bytes): Bytes
    decreases |events|
  {
    if events == [] then [] else
    match events[0]
    case Write(data) => Sent(events[1..], data)
    case Advance => pending + Sent(events[1..], [])
    case _ => Sent(events[1..], pending)
  }

  /** The bytes written behind the cursor and not yet published. */
  function Pending(s: State): Bytes {
    if s.writer.Wrote? && s.gens != [] then
      Slice(s.memory, Last(s).block, |Last(s).bytes|, |Last(s).bytes| + s.writer.n)
    else []
  }

  /** Everything published so far. */
  function Published(s: State): Bytes {
    Concat(s.gens, |s.gens|)
  }

  lemma OverwriteReads(content: Bytes, at: nat, data: Bytes)
    requires at + |data| <= |content|
    ensures |Overwrite(content, at, data)| == |content| && Overwrite(content, at, data)[at..at + |data|] == data
  {
  }

  lemma WritePublishes(s: State, data: Bytes)
    requires Inv(s) && Can(s, Write(data))
    ensures Published(Step(s, Write(data))) == Published(s) && Pending(Step(s, Write(data))) == data
  {
    var g, w := Last(s), Step(s, Write(data));
    OverwriteReads(s.memory[g.block], |g.bytes|, data);
    assert Last(w) == g && w.memory[g.block] == Overwrite(s.memory[g.block], |g.bytes|, data);
  }

  lemma AdvancePublishes(s: State)
    requires Inv(s) && Can(s, Advance)
    ensures Published(Step(s, Advance)) == Published(s) + Pending(s) && Pending(Step(s, Advance)) == []
  {
    var g, n := Last(s), |s.gens| - 1;
    LastStored(s);
    var content, c := s.memory[g.block], |g.bytes|;
    assert content[..c + s.writer.n] == content[..c] + content[c..c + s.writer.n];
    var w := Step(s, Advance);
    ConcatGrown(s.gens, w.gens, n);
    assert Concat(s.gens, n) + (g.bytes + Pending(s)) == Concat(s.gens, n) + g.bytes + Pending(s);
  }

  lemma PublishPublishes(s: State)
    requires Can(s, Publish)
    ensures Published(Step(s, Publish)) == Published(s) && Pending(Step(s, Publish)) == []
  {
    var w := Step(s, Publish);
    ConcatGrown(s.gens, w.gens, |s.gens|);
    assert Published(s) + [] == Published(s);
  }

  lemma SamePending(s: State, w: State)
    requires w.gens == s.gens && (w.writer == s.writer || (!w.writer.Wrote? && !s.writer.Wrote?))
    requires s.writer.Wrote? && s.gens != [] && Last(s).block in s.memory ==>
      Last(s).block in w.memory && w.memory[Last(s).block] == s.memory[Last(s).block]
    requires s.writer.Wrote? && s.gens != [] ==> Last(s).block in s.memory
    ensures Published(w) == Published(s) && Pending(w) == Pending(s)
  {
  }

  /** The other steps publish nothing and leave what is pending. */
  lemma OthersPublishNothing(s: State, ev: Event)
    requires Inv(s) && Can(s, ev) && !ev.Write? && !ev.Advance? && !ev.Publish?
    ensures Published(Step(s, ev)) == Published(s) && Pending(Step(s, ev)) == Pending(s)
  {
    if s.writer.Wrote? {
      LastStored(s);
    }
    SamePending(s, Step(s, ev));
  }

  /** A new generation starts with nothing written. */
  lemma NothingPending(s: State)
    requires s.writer.Took?
    ensures Pending(s) == []
  {
  }

  /** What is published over a run is what the events say was sent. */
  lemma {:induction false} PublishesSent(s: State, events: seq<Event>)
    requires Inv(s) && BlocksOk(s) && Possible(s, events)
    ensures Published(Run(s, events)) == Published(s) + Sent(events, Pending(s))
    decreases |events|
  {
    if events == [] {
      assert Published(s) + [] == Published(s);
    } else {
      StepKeeps(s, events[0]);
      BlocksStep(s, events[0]);
      PublishesSent(Step(s, events[0]), events[1..]);
      StepPublishes(s, events);
    }
  }

  lemma StepPublishes(s: State, events: seq<Event>)
    requires Inv(s) && events != [] && Can(s, events[0])
    ensures var w := Step(s, events[0]);
      Published(w) + Sent(events[1..], Pending(w)) == Published(s) + Sent(events, Pending(s))
  {
    hide Inv, Step, Published, Pending;
    var ev := events[0];
    match ev
    case Write(data) => WritePublishes(s, data);
    case Advance =>
      AdvancePublishes(s);
      var rest := Sent(events[1..], []);
      assert Published(s) + Pending(s) + rest == Published(s) + (Pending(s) + rest);
    case Publish =>
      PublishPublishes(s);
      NothingPending(s);
    case _ => OthersPublishNothing(s, ev);
  }

  /** What follows the first `n` generations. */
  function ConcatFrom(gens: seq<Gen>, n: nat): Bytes
    requires n <= |gens|
    decreases |gens| - n
  {
    if n == |gens| then [] else gens[n].bytes + ConcatFrom(gens, n + 1)
  }

  lemma {:induction false} ConcatSplits(gens: seq<Gen>, n: nat)
    requires n <= |gens|
    ensures Concat(gens, n) + ConcatFrom(gens, n) == Concat(gens, |gens|)
    decreases |gens| - n
  {
    if n < |gens| {
      ConcatSplits(gens, n + 1);
      Regroup(Concat(gens, n), gens[n].bytes, ConcatFrom(gens, n + 1));
    } else {
      assert Concat(gens, n) + [] == Concat(gens, n);
    }
  }

  lemma Regroup(a: Bytes, b: Bytes, c: Bytes)
    ensures a + b + c == a + (b + c)
  {
  }

  lemma CutInTwo(bytes: Bytes, n: nat)
    requires n <= |bytes|
    ensures bytes[..n] + bytes[n..] == bytes
  {
  }

  /** Tracked bytes are a prefix of what is published: the rest is still to come. */
  lemma TrackedIsPrefix(gens: seq<Gen>, m: Mark, popped: nat) returns (rest: Bytes)
    requires MarkOk(gens, m, popped)
    ensures Tracked(gens, m) + rest == Concat(gens, |gens|)
  {
    if m.gen == 0 {
      rest := Concat(gens, |gens|);
    } else {
      var bytes, tail := gens[m.gen - 1].bytes, ConcatFrom(gens, m.gen);
      rest := bytes[m.bytes..] + tail;
      CutInTwo(bytes, m.bytes);
      ConcatSplits(gens, m.gen);
      Regroup(Concat(gens, m.gen - 1), bytes[..m.bytes], bytes[m.bytes..]);
      Regroup(Tracked(gens, m), bytes[m.bytes..], tail);
    }
  }

  /** At every moment the log is a prefix of what was sent: no byte lost in between, repeated or out of order. */
  lemma LogIsSentPrefix(events: seq<Event>)
    requires Possible(Start(), events)
    ensures Run(Start(), events).log <= Sent(events, [])
  {
    StartOk();
    RunKeeps(Start(), events);
    PublishesSent(Start(), events);
    var s := Run(Start(), events);
    var rest := TrackedIsPrefix(s.gens, s.mark, s.popped);
    Regroup(s.log, InFlight(s), rest);
    assert Published(Start()) + Sent(events, []) == Sent(events, []);
  }

  /** Once the queue is drained and the writer has sealed, the log is everything that was sent, once and in order. */
  lemma DrainedIsDurable(events: seq<Event>)
    requires Possible(Start(), events)
    requires var s := Run(Start(), events); s.worker == Idle && s.queue == [] && s.writer == Between
    ensures Run(Start(), events).log == Sent(events, [])
  {
    StartOk();
    RunKeeps(Start(), events);
    PublishesSent(Start(), events);
    var s := Run(Start(), events);
    assert s.log + [] == s.log;
    if s.mark.gen > 0 {
      TrackedWhole(s.gens, s.mark);
    }
    assert Published(Start()) + Sent(events, []) == Sent(events, []);
  }

  /** In every reachable state every minted block is in exactly one place. */
  lemma OnePlace(events: seq<Event>, block: nat)
    requires Possible(Start(), events)
    ensures var s := Run(Start(), events); Places(s, block) == (if block in s.memory then 1 else 0)
  {
    StartOk();
    RunKeeps(Start(), events);
  }

  /**
   * In every reachable state a checkpoint about to read gets the bytes of its own generation, from no recycled block.
   */
  lemma SafeRecycling(events: seq<Event>)
    requires Possible(Start(), events) && Run(Start(), events).worker.Reading?
    ensures var s := Run(Start(), events); var Reading(gen, block, from, to) := s.worker;
      && s.popped < gen <= |s.gens| && block == s.gens[gen - 1].block && from <= to <= |s.gens[gen - 1].bytes|
      && Count(s.pool, block) == 0
      && Slice(s.memory, block, from, to) == s.gens[gen - 1].bytes[from..to]
  {
    StartOk();
    RunKeeps(Start(), events);
    ReadsOwnGeneration(Run(Start(), events));
  }
}
