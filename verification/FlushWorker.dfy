/** The flush as its objects run it: the worker's watermark, log and pool, and the writer's register. */
module FlushWorker {
  import opened CoreIr
  import opened Flush

  /** A job from the queue to the waiting worker again, in the protocol's own steps. */
  function Committed(s: State): State
    requires Can(s, Pop)
  {
    var popped := Step(s, Pop);
    var chosen := if popped.worker.Reading? then Step(popped, Read) else popped;
    var logged := if chosen.worker.Appending? then Step(chosen, Append) else chosen;
    if logged.worker.Returning? then Step(logged, Return) else logged
  }

  /** Something of generation `gen` up to byte `to` is not accounted for yet. */
  predicate Newer(m: Mark, gen: nat, to: nat) {
    (gen > m.gen && to > 0) || (gen == m.gen && to > m.bytes)
  }

  class Worker {
    var mark: Mark
    var log: Bytes
    var pool: seq<nat>

    constructor ()
      ensures mark == Start().mark && log == Start().log && pool == Start().pool
    {
      mark, log, pool := Mark(0, 0), [], [];
    }

    /** The object's fields are those of the protocol's state. */
    ghost predicate Shows(s: State)
      reads this
    {
      mark == s.mark && log == s.log && pool == s.pool
    }

    method AdvanceWatermark(gen: nat, to: nat) returns (from: Option<nat>)
      modifies this`mark
      ensures (mark, from) == Reconcile(old(mark), gen, to)
      ensures from.Some? <==> (gen > old(mark).gen && to > 0) || (gen == old(mark).gen && to > old(mark).bytes)
      ensures from.Some? ==>
        from.value == (if gen == old(mark).gen then old(mark).bytes else 0) && mark == Mark(gen, to)
      ensures from.None? ==> mark == if gen > old(mark).gen then Mark(gen, 0) else old(mark)
      ensures mark.gen >= old(mark).gen && (mark.gen == old(mark).gen ==> mark.bytes >= old(mark).bytes)
    {
      var cur := mark;
      if gen < cur.gen {
        return None;
      }
      var start := if gen == cur.gen then cur.bytes else 0;
      if to <= start {
        if gen > cur.gen {
          mark := Mark(gen, start);
        }
        return None;
      }
      mark := Mark(gen, to);
      from := Some(start);
    }

    /** One job, committed: what the protocol's steps do from a state this object shows. */
    method CommitJob(job: Job, memory: map<nat, Bytes>, ghost s: State)
      requires Can(s, Pop) && s.queue[0] == job && s.memory == memory && Shows(s)
      modifies this
      ensures Shows(Committed(s))
      ensures job.Checkpoint? ==> pool == old(pool)
      ensures job.Checkpoint? && Newer(old(mark), job.gen, job.to) ==>
        mark == Mark(job.gen, job.to) &&
        log == old(log) + Slice(memory, job.block, if job.gen == old(mark).gen then old(mark).bytes else 0, job.to)
      ensures job.Seal? ==> pool == old(pool) + [job.block]
      ensures job.Seal? && Newer(old(mark), job.gen, |job.bytes|) ==>
        mark == Mark(job.gen, |job.bytes|) &&
        log == old(log) + (if job.gen == old(mark).gen then job.bytes[old(mark).bytes..] else job.bytes)
      ensures !Newer(old(mark), job.gen, if job.Seal? then |job.bytes| else job.to) ==> log == old(log)
    {
      match job
      case Seal(block, gen, bytes) =>
        var from := AdvanceWatermark(gen, |bytes|);
        if from.Some? {
          log := log + bytes[from.value..];
        } else {
          assert log + [] == log;
        }
        pool := pool + [block];
      case Checkpoint(gen, block, to) =>
        var from := AdvanceWatermark(gen, to);
        if from.None? {
          return;
        }
        log := log + Slice(memory, block, from.value, to);
    }
  }

  const FIELDS := 8
  const PTR := 0
  const CURSOR := 3
  const GENERATION := 7

  /** The thread's register of eight fields, and the triple it publishes to the timer. */
  class HotBlock {
    const field: array<int>
    var published: (int, int, int)

    ghost predicate Valid()
      reads this
    {
      field.Length == FIELDS
    }

    /** The register and the published triple are the protocol's: generation, active block, and what the timer reads. */
    ghost predicate Shows(s: State)
      reads this, field
    {
      && Valid() && field[GENERATION] == |s.gens|
      && published == (s.published.block, s.published.cursor, s.published.gen)
      && (s.writer.Active? || s.writer.Wrote? ==> s.gens != [] && field[PTR] == Last(s).block)
    }

    constructor ()
      ensures Valid() && fresh(field) && published == (0, 0, 0) && forall i :: 0 <= i < FIELDS ==> field[i] == 0
      ensures Shows(Start())
    {
      field := new int[FIELDS](_ => 0);
      published := (0, 0, 0);
    }

    /** A new pointer starts a new generation with cursor 0; a new cursor is published with the block it belongs to. */
    method Set(f: int, v: int) returns (ok: bool)
      requires Valid()
      modifies this, field
      ensures Valid() && ok == (0 <= f < FIELDS)
      ensures !ok ==> field[..] == old(field[..]) && published == old(published)
      ensures ok && f == PTR ==>
        && field[..] == old(field[..])[PTR := v][GENERATION := old(field[GENERATION]) + 1]
        && published == (v, 0, old(field[GENERATION]) + 1)
      ensures ok && f == CURSOR ==>
        field[..] == old(field[..])[CURSOR := v] && published == (old(field[PTR]), v, old(field[GENERATION]))
      ensures ok && f != PTR && f != CURSOR ==> field[..] == old(field[..])[f := v] && published == old(published)
    {
      if f < 0 || f >= FIELDS {
        return false;
      }
      field[f] := v;
      if f == PTR {
        field[GENERATION] := field[GENERATION] + 1;
        published := (field[PTR], 0, field[GENERATION]);
      } else if f == CURSOR {
        published := (field[PTR], field[CURSOR], field[GENERATION]);
      }
      ok := true;
    }

    /** The pointer write of a mint or a rotation is the protocol's publication of a new generation. */
    method PublishBlock(block: nat, ghost s: State)
      requires Shows(s) && s.writer == Took(block)
      modifies this, field
      ensures Shows(Step(s, Publish))
    {
      var _ := Set(PTR, block);
    }

    /** The cursor write after an append is the protocol's publication of a longer prefix. */
    method PublishCursor(cursor: nat, ghost s: State)
      requires Shows(s) && Can(s, Advance) && cursor == |Last(s).bytes| + s.writer.n
      modifies this, field
      ensures Shows(Step(s, Advance))
    {
      var _ := Set(CURSOR, cursor);
    }
  }
}
