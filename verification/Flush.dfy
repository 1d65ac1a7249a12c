/**
 * The timed flush: a writer that fills blocks, a timer that asks for checkpoints, one worker that commits, and an
 * allocator, over one first-in first-out queue. One step of one of them at a time, in any order.
 */
module Flush {
  import opened CoreIr
  import opened Counting

  type Bytes = seq<Byte>

  datatype Job =
    | Seal(block: nat, gen: nat, bytes: Bytes)
    | Checkpoint(gen: nat, block: nat, to: nat)

  /** What a generation is: its block, and the bytes its writer has published. For reasoning only. */
  datatype Gen = Gen(block: nat, bytes: Bytes)

  /**
   * The writer between blocks, with a block it has not published, with its active block, and with bytes it wrote behind
   * the cursor.
   */
  datatype Writer = Between | Took(block: nat) | Active | Wrote(n: nat)

  datatype Triple = Triple(block: nat, cursor: nat, gen: nat)

  /** The worker: waiting, about to read a block for a checkpoint, about to append, about to return a block. */
  datatype Worker =
    | Idle
    | Reading(gen: nat, block: nat, from: nat, to: nat)
    | Appending(bytes: Bytes, free: Option<nat>)
    | Returning(block: nat)

  /** `popped` counts the seals the worker has taken off the queue. For reasoning only. */
  datatype State = State(
    memory: map<nat, Bytes>,
    pool: seq<nat>,
    gens: seq<Gen>,
    writer: Writer,
    published: Triple,
    timer: Option<Triple>,
    queue: seq<Job>,
    worker: Worker,
    mark: Mark,
    log: Bytes,
    popped: nat)

  /** The watermark: a generation, and how many of its bytes are accounted for. */
  datatype Mark = Mark(gen: nat, bytes: nat)

  /** `advance_watermark`: the new mark, and where to commit from when there is something to commit. */
  function Reconcile(m: Mark, gen: nat, to: nat): (Mark, Option<nat>) {
    if gen < m.gen then (m, None) else
    var from := if gen == m.gen then m.bytes else 0;
    if to <= from then (if gen > m.gen then Mark(gen, from) else m, None)
    else (Mark(gen, to), Some(from))
  }

  datatype Event =
    | Mint(block: nat, content: Bytes)
    | Take
    | Publish
    | Write(data: Bytes)
    | Advance
    | SealBlock
    | TimerRead
    | TimerSend
    | Pop
    | Read
    | Append
    | Return

  function Last(s: State): Gen
    requires s.gens != []
  {
    s.gens[|s.gens| - 1]
  }

  /** Where this step is possible. */
  predicate Can(s: State, ev: Event) {
    match ev
    case Mint(block, _) => block !in s.memory
    case Take => s.writer == Between && s.pool != []
    case Publish => s.writer.Took?
    case Write(data) =>
      s.writer == Active && s.gens != [] && Last(s).block in s.memory &&
      |Last(s).bytes| + |data| <= |s.memory[Last(s).block]|
    case Advance => s.writer.Wrote? && s.gens != [] && Last(s).block in s.memory &&
      |Last(s).bytes| + s.writer.n <= |s.memory[Last(s).block]|
    case SealBlock =>
      s.writer == Active && s.gens != [] && Last(s).block in s.memory && |Last(s).bytes| <= |s.memory[Last(s).block]|
    case TimerRead => true
    case TimerSend => s.timer.Some?
    case Pop => s.worker == Idle && s.queue != []
    case Read => s.worker.Reading?
    case Append => s.worker.Appending?
    case Return => s.worker.Returning?
  }

  function Overwrite(content: Bytes, at: nat, data: Bytes): Bytes
    requires at + |data| <= |content|
  {
    content[..at] + data + content[at + |data|..]
  }

  /** The bytes of a block the worker reads; what a wrong read would give is left open. */
  function Slice(memory: map<nat, Bytes>, block: nat, from: nat, to: nat): Bytes {
    if block in memory && from <= to <= |memory[block]| then memory[block][from..to] else []
  }

  /** `commit_job` takes a job and reconciles it with the watermark. */
  function Popped(s: State, job: Job): State {
    match job
    case Seal(block, gen, bytes) =>
      var (mark, from) := Reconcile(s.mark, gen, |bytes|);
      s.(mark := mark, popped := s.popped + 1,
         worker := Appending(if from.Some? && from.value <= |bytes| then bytes[from.value..] else [], Some(block)))
    case Checkpoint(gen, block, to) =>
      var (mark, from) := Reconcile(s.mark, gen, to);
      s.(mark := mark, worker := if from.Some? then Reading(gen, block, from.value, to) else Idle)
  }

  function Step(s: State, ev: Event): State
    requires Can(s, ev)
  {
    match ev
    case Mint(block, content) => s.(memory := s.memory[block := content], pool := s.pool + [block])
    case Take => s.(pool := s.pool[1..], writer := Took(s.pool[0]))
    case Publish =>
      var block := s.writer.block;
      s.(gens := s.gens + [Gen(block, [])], writer := Active, published := Triple(block, 0, |s.gens| + 1))
    case Write(data) =>
      var g := Last(s);
      s.(memory := s.memory[g.block := Overwrite(s.memory[g.block], |g.bytes|, data)], writer := Wrote(|data|))
    case Advance =>
      var g := Last(s);
      var cursor := |g.bytes| + s.writer.n;
      s.(gens := s.gens[|s.gens| - 1 := Gen(g.block, s.memory[g.block][..cursor])],
         writer := Active,
         published := Triple(g.block, cursor, |s.gens|))
    case SealBlock =>
      var g := Last(s);
      s.(queue := s.queue + [Seal(g.block, |s.gens|, s.memory[g.block][..|g.bytes|])], writer := Between)
    case TimerRead => s.(timer := Some(s.published))
    case TimerSend =>
      var t := s.timer.value;
      s.(queue := s.queue + [Checkpoint(t.gen, t.block, t.cursor)], timer := None)
    case Pop => Popped(s.(queue := s.queue[1..]), s.queue[0])
    case Read => s.(worker := Appending(Slice(s.memory, s.worker.block, s.worker.from, s.worker.to), None))
    case Append =>
      s.(log := s.log + s.worker.bytes,
         worker := if s.worker.free.Some? then Returning(s.worker.free.value) else Idle)
    case Return => s.(pool := s.pool + [s.worker.block], worker := Idle)
  }

  function Start(): State {
    State(map[], [], [], Between, Triple(0, 0, 0), None, [], Idle, Mark(0, 0), [], 0)
  }

  // ----- the invariant -----

  /** Generations whose seal has been queued. */
  function SealedCount(s: State): nat {
    if (s.writer.Active? || s.writer.Wrote?) && s.gens != [] then |s.gens| - 1 else |s.gens|
  }

  /** A checkpoint names a published prefix of a generation that exists and that generation's own block. */
  predicate TripleOk(gens: seq<Gen>, t: Triple) {
    if t.gen == 0 then t.cursor == 0
    else t.gen <= |gens| && t.block == gens[t.gen - 1].block && t.cursor <= |gens[t.gen - 1].bytes|
  }

  /** The queue, when the seals of `popped` generations have left it and those of `sealed` have entered it. */
  predicate QueueOk(gens: seq<Gen>, queue: seq<Job>, popped: nat, sealed: nat) {
    if queue == [] then popped == sealed else
    match queue[0]
    case Seal(block, gen, bytes) =>
      && gen == popped + 1 && gen <= |gens| && gens[gen - 1] == Gen(block, bytes)
      && QueueOk(gens, queue[1..], popped + 1, sealed)
    case Checkpoint(gen, block, to) =>
      && TripleOk(gens, Triple(block, to, gen)) && gen <= popped + 1
      && QueueOk(gens, queue[1..], popped, sealed)
  }

  /** Blocks of the queued seals, first to last. */
  function QueuedBlocks(queue: seq<Job>): seq<nat> {
    if queue == [] then []
    else (if queue[0].Seal? then [queue[0].block] else []) + QueuedBlocks(queue[1..])
  }

  function WriterBlocks(s: State): seq<nat> {
    match s.writer
    case Between => []
    case Took(block) => [block]
    case _ => if s.gens == [] then [] else [Last(s).block]
  }

  function WorkerBlocks(s: State): seq<nat> {
    match s.worker
    case Appending(_, free) => if free.Some? then [free.value] else []
    case Returning(block) => [block]
    case _ => []
  }

  /** How many places a block is in: the pool, the writer's hands, a queued seal, the worker's hands. */
  function Places(s: State, block: nat): nat {
    Count(s.pool, block) + Count(WriterBlocks(s), block) + Count(QueuedBlocks(s.queue), block) +
    Count(WorkerBlocks(s), block)
  }

  /** A generation whose seal has not been taken off the queue still has its bytes in its block. */
  predicate Stored(memory: map<nat, Bytes>, gen: Gen) {
    gen.block in memory && |gen.bytes| <= |memory[gen.block]| && memory[gen.block][..|gen.bytes|] == gen.bytes
  }

  /** The bytes of generations 1 to `n`. */
  function Concat(gens: seq<Gen>, n: nat): Bytes
    requires n <= |gens|
  {
    if n == 0 then [] else Concat(gens, n - 1) + gens[n - 1].bytes
  }

  /** The bytes the watermark accounts for. */
  function Tracked(gens: seq<Gen>, m: Mark): Bytes
    requires m.gen <= |gens| && (m.gen > 0 ==> m.bytes <= |gens[m.gen - 1].bytes|)
  {
    if m.gen == 0 then [] else Concat(gens, m.gen - 1) + gens[m.gen - 1].bytes[..m.bytes]
  }

  /** The bytes the worker is about to append. */
  function InFlight(s: State): Bytes {
    match s.worker
    case Reading(gen, _, from, to) =>
      if 1 <= gen <= |s.gens| && from <= to <= |s.gens[gen - 1].bytes| then s.gens[gen - 1].bytes[from..to] else []
    case Appending(bytes, _) => bytes
    case _ => []
  }

  predicate MarkOk(gens: seq<Gen>, m: Mark, popped: nat)
  {
    && m.gen <= |gens|
    && (m.gen == 0 ==> m.bytes == 0)
    && (m.gen > 0 ==> m.bytes <= |gens[m.gen - 1].bytes|)
    && (m.gen == popped || m.gen == popped + 1)
    && (0 < m.gen == popped ==> m.bytes == |gens[m.gen - 1].bytes|)
  }

  /** A checkpoint about to read its block: that generation's seal is still to come. */
  predicate WorkerOk(s: State) {
    s.worker.Reading? ==>
      var Reading(gen, block, from, to) := s.worker;
      gen == s.popped + 1 && gen <= |s.gens| && block == s.gens[gen - 1].block && from <= to <= |s.gens[gen - 1].bytes|
  }

  predicate WriterOk(s: State) {
    match s.writer
    case Active => s.gens != []
    case Wrote(n) => s.gens != [] && Last(s).block in s.memory && |Last(s).bytes| + n <= |s.memory[Last(s).block]|
    case _ => true
  }

  /** Who knows what: the queue, the published triple, the timer's copy, the watermark. */
  predicate Orderly(s: State) {
    && WriterOk(s)
    && QueueOk(s.gens, s.queue, s.popped, SealedCount(s))
    && TripleOk(s.gens, s.published)
    && (s.timer.Some? ==> TripleOk(s.gens, s.timer.value))
    && MarkOk(s.gens, s.mark, s.popped)
    && WorkerOk(s)
  }

  ghost predicate AllStored(s: State) {
    forall g :: s.popped <= g < |s.gens| ==> Stored(s.memory, s.gens[g])
  }

  /** Every block that was ever minted is in exactly one place, and no other is anywhere. */
  ghost predicate BlocksOk(s: State) {
    forall block: nat :: Places(s, block) == (if block in s.memory then 1 else 0)
  }

  ghost predicate Inv(s: State) {
    Orderly(s) && AllStored(s) && s.log + InFlight(s) == Tracked(s.gens, s.mark)
  }

  // ----- the queue -----

  lemma {:induction false} QueueCounts(gens: seq<Gen>, queue: seq<Job>, popped: nat, sealed: nat)
    requires QueueOk(gens, queue, popped, sealed)
    ensures popped <= sealed && (popped < sealed ==> sealed <= |gens|)
    decreases |queue|
  {
    if queue != [] {
      match queue[0]
      case Seal(_, _, _) => QueueCounts(gens, queue[1..], popped + 1, sealed);
      case Checkpoint(_, _, _) => QueueCounts(gens, queue[1..], popped, sealed);
    }
  }

  /** Generations that are sealed stay as they are; the others keep their block and their first bytes. */
  ghost predicate Grown(gens: seq<Gen>, more: seq<Gen>, sealed: nat) {
    && |gens| <= |more|
    && (forall g :: 0 <= g < |gens| ==> GenGrown(gens[g], more[g]))
    && (forall g :: 0 <= g < |gens| && g < sealed ==> more[g] == gens[g])
  }

  predicate GenGrown(a: Gen, c: Gen) {
    c.block == a.block && |a.bytes| <= |c.bytes| && c.bytes[..|a.bytes|] == a.bytes
  }

  lemma TripleGrown(gens: seq<Gen>, more: seq<Gen>, sealed: nat, t: Triple)
    requires Grown(gens, more, sealed) && TripleOk(gens, t)
    ensures TripleOk(more, t)
  {
    if t.gen > 0 {
      assert GenGrown(gens[t.gen - 1], more[t.gen - 1]);
    }
  }

  lemma {:induction false} QueueGrown(gens: seq<Gen>, more: seq<Gen>, queue: seq<Job>, popped: nat, sealed: nat)
    requires Grown(gens, more, sealed) && QueueOk(gens, queue, popped, sealed)
    ensures QueueOk(more, queue, popped, sealed)
    decreases |queue|
  {
    if queue != [] {
      match queue[0]
      case Seal(_, gen, _) =>
        QueueCounts(gens, queue[1..], popped + 1, sealed);
        QueueGrown(gens, more, queue[1..], popped + 1, sealed);
      case Checkpoint(gen, block, to) =>
        TripleGrown(gens, more, sealed, Triple(block, to, gen));
        QueueGrown(gens, more, queue[1..], popped, sealed);
    }
  }

  lemma {:induction false} QueueAppends(gens: seq<Gen>, queue: seq<Job>, job: Job, popped: nat, sealed: nat, after: nat)
    requires QueueOk(gens, queue, popped, sealed) && QueueOk(gens, [job], sealed, after)
    ensures QueueOk(gens, queue + [job], popped, after)
    decreases |queue|
  {
    if queue == [] {
      assert queue + [job] == [job];
    } else {
      assert (queue + [job])[1..] == queue[1..] + [job] && (queue + [job])[0] == queue[0];
      match queue[0]
      case Seal(_, _, _) => QueueAppends(gens, queue[1..], job, popped + 1, sealed, after);
      case Checkpoint(_, _, _) => QueueAppends(gens, queue[1..], job, popped, sealed, after);
    }
  }

  lemma {:induction false} QueuedCount(queue: seq<Job>, job: Job, x: nat)
    ensures Count(QueuedBlocks(queue + [job]), x) ==
      Count(QueuedBlocks(queue), x) + (if job.Seal? && job.block == x then 1 else 0)
    decreases |queue|
  {
    if queue == [] {
      assert queue + [job] == [job] && [job][1..] == [];
      assert QueuedBlocks([job]) == if job.Seal? then [job.block] else [];
      CountOne(if job.Seal? then job.block else 0, x);
    } else {
      assert (queue + [job])[1..] == queue[1..] + [job] && (queue + [job])[0] == queue[0];
      QueuedCount(queue[1..], job, x);
      QueuedHead(queue, x);
      QueuedHead(queue + [job], x);
    }
  }

  lemma QueuedHead(queue: seq<Job>, x: nat)
    requires queue != []
    ensures Count(QueuedBlocks(queue), x) ==
      (if queue[0].Seal? && queue[0].block == x then 1 else 0) + Count(QueuedBlocks(queue[1..]), x)
  {
    var rest := QueuedBlocks(queue[1..]);
    if queue[0].Seal? {
      CountConcat([queue[0].block], rest, x);
      CountOne(queue[0].block, x);
    } else {
      assert [] + rest == rest;
    }
  }

  // ----- the log -----

  lemma {:induction false} ConcatGrown(gens: seq<Gen>, more: seq<Gen>, n: nat)
    requires n <= |gens| <= |more| && forall g :: 0 <= g < n ==> more[g].bytes == gens[g].bytes
    ensures Concat(more, n) == Concat(gens, n)
  {
    if n > 0 {
      ConcatGrown(gens, more, n - 1);
    }
  }

  lemma TrackedGrown(gens: seq<Gen>, more: seq<Gen>, sealed: nat, popped: nat, m: Mark)
    requires Grown(gens, more, sealed) && MarkOk(gens, m, popped) && popped <= sealed
    ensures MarkOk(more, m, popped) && Tracked(more, m) == Tracked(gens, m)
  {
    if m.gen > 0 {
      var g := m.gen - 1;
      assert GenGrown(gens[g], more[g]);
      SubSlice(more[g].bytes, |gens[g].bytes|, 0, m.bytes);
      ConcatGrown(gens, more, g);
    }
  }

  lemma SubSlice(content: Bytes, n: nat, from: nat, to: nat)
    requires from <= to <= n <= |content|
    ensures content[..n][from..to] == content[from..to]
  {
    forall i | 0 <= i < to - from
      ensures content[..n][from..to][i] == content[from..to][i]
    {
    }
  }

  lemma InFlightGrown(s: State, w: State, sealed: nat)
    requires Grown(s.gens, w.gens, sealed) && w.worker == s.worker && w.popped == s.popped && WorkerOk(s)
    ensures WorkerOk(w) && InFlight(w) == InFlight(s)
  {
    if s.worker.Reading? {
      var Reading(gen, _, from, to) := s.worker;
      var a, c := s.gens[gen - 1], w.gens[gen - 1];
      assert GenGrown(a, c);
      SubSlice(c.bytes, |a.bytes|, from, to);
    }
  }
}
