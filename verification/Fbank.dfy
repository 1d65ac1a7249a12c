/**
 * The append-only deduplicating bank: any number of threads put or intern texts into one open-addressing table,
 * one atomic access at a time, in any order.
 */
module Fbank {
  import opened CoreIr
  import opened Ring

  type Data = seq<Byte>

  datatype Kind = Put(ordinal: int) | Intern | Lookup

  /** One call: `fbank_put` with its ordinal, `intern`, or `fbank_find`. */
  datatype Job = Job(data: Data, kind: Kind)

  datatype Setup = Setup(maxEntries: nat, maxBytes: nat, hash: Data -> nat, jobs: seq<Job>)

  type Bank = b: Setup | b.maxEntries >= 1 witness Setup(1, 0, (d: Data) => 0, [])

  function PowerFrom(p: nat, n: nat): (q: nat)
    requires p >= 1
    ensures q >= n && q >= 1
    decreases n - p
  {
    if p >= n then p else PowerFrom(2 * p, n)
  }

  /** The smallest power of two that is at least twice `maxEntries`. */
  function Slots(b: Bank): (n: nat)
    ensures n >= 2 * b.maxEntries && n >= 2
  {
    PowerFrom(1, 2 * b.maxEntries)
  }

  function Home(b: Bank, d: Data): nat {
    b.hash(d) % Slots(b)
  }

  /** The slot a probe for `d` looks at after `k` steps. */
  function At(b: Bank, d: Data, k: nat): nat {
    Round(Slots(b), Home(b, d), k)
  }

  function Ordinal(j: Job): int {
    match j.kind
    case Put(ordinal) => ordinal
    case _ => 0
  }

  /** What became of an entry id: who drew it, which bytes it was given, whether it is written. For reasoning only. */
  datatype Entry = Entry(owner: nat, place: Option<nat>, filled: bool)

  /** `count` is the number of entries drawn. */
  datatype Memory = Memory(
    cursor: nat, bytes: seq<Byte>, off: seq<nat>, len: seq<nat>, hash: seq<nat>, ord: seq<int>, entries: seq<Entry>)

  datatype Pc =
    | Probe(k: nat)
    | Draw(k: nat)
    | Room(id: nat, k: nat)
    | Fill(id: nat, at: nat, k: nat)
    | Insert(id: nat, k: nat)
    | TakeEmpty(id: nat, k: nat)
    | Displace(id: nat, k: nat, cur: nat)
    | Done(answer: int)

  datatype State = State(mem: Memory, table: seq<Option<nat>>, pcs: seq<Pc>)

  const FULL := -2
  const REFUSED := -1
  const ABSENT := -1

  // ----- one atomic step of a thread -----

  /** The comparison of entry `c` with a text: the stored hash, then the stored bytes. */
  predicate Matches(m: Memory, c: nat, h: nat, d: Data) {
    && c < |m.hash| && c < |m.off| && c < |m.len|
    && m.hash[c] == h
    && m.off[c] + m.len[c] <= |m.bytes|
    && m.bytes[m.off[c]..m.off[c] + m.len[c]] == d
  }

  predicate AtMost(m: Memory, c: nat, ordinal: int) {
    c < |m.ord| && m.ord[c] <= ordinal
  }

  function Cell(s: State, i: nat): Option<nat> {
    if i < |s.table| then s.table[i] else None
  }

  function Goto(s: State, t: nat, pc: Pc): State
    requires t < |s.pcs|
  {
    s.(pcs := s.pcs[t := pc])
  }

  /** The loaded cell decides what a read-only probe does. */
  function Probed(b: Bank, m: Memory, job: Job, k: nat, cell: Option<nat>): Pc {
    match cell
    case None => if job.kind.Lookup? then Done(ABSENT) else Draw(k)
    case Some(c) =>
      if !Matches(m, c, b.hash(job.data), job.data) then Probe(k + 1)
      else match job.kind
        case Put(ordinal) => if AtMost(m, c, ordinal) then Done(REFUSED) else Draw(k)
        case _ => Done(c)
  }

  function Inserted(b: Bank, m: Memory, job: Job, id: nat, k: nat, cell: Option<nat>): Pc {
    match cell
    case None => TakeEmpty(id, k)
    case Some(c) =>
      if !Matches(m, c, b.hash(job.data), job.data) then Insert(id, k + 1)
      else match job.kind
        case Put(ordinal) => if AtMost(m, c, ordinal) then Done(REFUSED) else Displace(id, k, c)
        case _ => Done(c)
  }

  function DrawId(m: Memory, t: nat): Memory {
    m.(entries := m.entries + [Entry(t, None, false)])
  }

  function DrawBytes(m: Memory, id: nat, n: nat): Memory
    requires id < |m.entries|
  {
    m.(cursor := m.cursor + n, entries := m.entries[id := m.entries[id].(place := Some(m.cursor))])
  }

  /** The text goes into the thread's own range, then the entry's fields; an interned entry keeps ordinal 0. */
  function Written(b: Bank, m: Memory, job: Job, id: nat, at: nat): Memory
    requires id < |m.entries| && id < |m.off| && id < |m.len| && id < |m.hash| && id < |m.ord|
    requires at + |job.data| <= |m.bytes|
  {
    m.(bytes := m.bytes[..at] + job.data + m.bytes[at + |job.data|..],
       off := m.off[id := at],
       len := m.len[id := |job.data|],
       hash := m.hash[id := b.hash(job.data)],
       ord := if job.kind.Put? then m.ord[id := job.kind.ordinal] else m.ord,
       entries := m.entries[id := m.entries[id].(filled := true)])
  }

  predicate CanWrite(m: Memory, id: nat, at: nat, n: nat) {
    id < |m.entries| && id < |m.off| && id < |m.len| && id < |m.hash| && id < |m.ord| && at + n <= |m.bytes|
  }

  /** One atomic access by thread `t`. */
  function Step(b: Bank, s: State, t: nat): (w: State)
    requires t < |s.pcs| && t < |b.jobs|
    ensures |w.pcs| == |s.pcs|
  {
    var job := b.jobs[t];
    var n := |job.data|;
    match s.pcs[t]
    case Probe(k) => Goto(s, t, Probed(b, s.mem, job, k, Cell(s, At(b, job.data, k))))
    case Draw(k) =>
      var id := |s.mem.entries|;
      Goto(s.(mem := DrawId(s.mem, t)), t, if id >= b.maxEntries then Done(FULL) else Room(id, k))
    case Room(id, k) =>
      if id >= |s.mem.entries| then s else
      var at := s.mem.cursor;
      Goto(s.(mem := DrawBytes(s.mem, id, n)), t, if at + n > b.maxBytes then Done(FULL) else Fill(id, at, k))
    case Fill(id, at, k) =>
      if !CanWrite(s.mem, id, at, n) then s else
      Goto(s.(mem := Written(b, s.mem, job, id, at)), t, Insert(id, if job.kind.Put? then 0 else k))
    case Insert(id, k) => Goto(s, t, Inserted(b, s.mem, job, id, k, Cell(s, At(b, job.data, k))))
    case TakeEmpty(id, k) => Exchange(b, s, t, id, k, None)
    case Displace(id, k, cur) => Exchange(b, s, t, id, k, Some(cur))
    case Done(_) => s
  }

  /** The compare-exchange: publish, or look at the slot again. */
  function Exchange(b: Bank, s: State, t: nat, id: nat, k: nat, expected: Option<nat>): State
    requires t < |s.pcs| && t < |b.jobs|
  {
    var i := At(b, b.jobs[t].data, k);
    if i < |s.table| && s.table[i] == expected
    then Goto(s.(table := s.table[i := Some(id)]), t, Done(id))
    else Goto(s, t, Insert(id, k))
  }

  function Start(b: Bank): State {
    State(
      Memory(0, seq(b.maxBytes, _ => 0), seq(b.maxEntries, _ => 0), seq(b.maxEntries, _ => 0),
             seq(b.maxEntries, _ => 0), seq(b.maxEntries, _ => 0), []),
      seq(Slots(b), _ => None),
      seq(|b.jobs|, _ => Probe(0)))
  }

  // ----- the invariant -----

  function Owner(m: Memory, id: nat): nat {
    if id < |m.entries| then m.entries[id].owner else 0
  }

  function JobOf(b: Bank, m: Memory, id: nat): Job {
    if Owner(m, id) < |b.jobs| then b.jobs[Owner(m, id)] else Job([], Intern)
  }

  /** The text entry `id` stands for. */
  function Content(b: Bank, m: Memory, id: nat): Data {
    JobOf(b, m, id).data
  }

  function OrdOf(b: Bank, m: Memory, id: nat): int {
    Ordinal(JobOf(b, m, id))
  }

  predicate Filled(m: Memory, id: nat) {
    id < |m.entries| && m.entries[id].filled
  }

  /** What a written entry's fields say. */
  predicate Reads(b: Bank, m: Memory, id: nat)
    requires Sized(b, m) && id < |m.entries| && id < b.maxEntries
  {
    && m.entries[id].place == Some(m.off[id])
    && m.len[id] == |Content(b, m, id)| && m.off[id] + m.len[id] <= b.maxBytes
    && m.hash[id] == b.hash(Content(b, m, id)) && m.ord[id] == OrdOf(b, m, id)
    && m.bytes[m.off[id]..m.off[id] + m.len[id]] == Content(b, m, id)
  }

  predicate Sized(b: Bank, m: Memory) {
    && |m.bytes| == b.maxBytes && |m.off| == |m.len| == |m.hash| == |m.ord| == b.maxEntries
  }

  predicate EntryOk(b: Bank, m: Memory, id: nat)
    requires Sized(b, m) && id < |m.entries|
  {
    var e := m.entries[id];
    && e.owner < |b.jobs|
    && (e.place.Some? ==> e.place.value + |Content(b, m, id)| <= m.cursor)
    && (e.filled ==> id < b.maxEntries && Reads(b, m, id))
  }

  /** Two byte ranges share no byte. */
  predicate Apart(b: Bank, m: Memory, x: nat, y: nat)
    requires x < |m.entries| && y < |m.entries|
  {
    var p, q := m.entries[x].place, m.entries[y].place;
    p.Some? && q.Some? ==>
      p.value + |Content(b, m, x)| <= q.value || q.value + |Content(b, m, y)| <= p.value
  }

  ghost predicate MemOk(b: Bank, m: Memory) {
    && Sized(b, m)
    && (forall id :: 0 <= id < |m.entries| ==> EntryOk(b, m, id))
    && (forall x, y :: 0 <= x < y < |m.entries| ==> Apart(b, m, x, y))
    && (forall id :: 0 <= id < b.maxEntries && !Filled(m, id) ==> m.ord[id] == 0)
  }

  // ----- the memory keeps what was written -----

  /** From `m` to `w` only entries of thread `t` changed, and nothing written was lost. */
  ghost predicate Extends(m: Memory, w: Memory, t: nat) {
    && |m.entries| <= |w.entries|
    && (forall id :: 0 <= id < |m.entries| ==> EntryExtends(m.entries[id], w.entries[id], t))
  }

  predicate EntryExtends(e: Entry, f: Entry, t: nat) {
    f.owner == e.owner && (e.filled ==> f.filled) && (e.owner != t ==> f == e)
  }

  lemma SameJobs(b: Bank, m: Memory, w: Memory, t: nat, id: nat)
    requires Extends(m, w, t) && id < |m.entries|
    ensures JobOf(b, w, id) == JobOf(b, m, id) && (Filled(m, id) ==> Filled(w, id))
  {
    assert EntryExtends(m.entries[id], w.entries[id], t);
  }

  /** A written entry reads back as its text and ordinal. */
  lemma ReadBack(b: Bank, m: Memory, c: nat, d: Data)
    requires MemOk(b, m) && Filled(m, c)
    ensures Matches(m, c, b.hash(d), d) <==> Content(b, m, c) == d
    ensures forall o :: AtMost(m, c, o) <==> OrdOf(b, m, c) <= o
  {
    assert EntryOk(b, m, c);
  }

  lemma DrawIdKeeps(b: Bank, m: Memory, t: nat)
    requires MemOk(b, m) && t < |b.jobs|
    ensures MemOk(b, DrawId(m, t)) && Extends(m, DrawId(m, t), t)
  {
    var w := DrawId(m, t);
    forall id | 0 <= id < |w.entries|
      ensures EntryOk(b, w, id)
    {
      if id < |m.entries| {
        assert EntryOk(b, m, id);
      }
    }
    forall x, y | 0 <= x < y < |w.entries|
      ensures Apart(b, w, x, y)
    {
      if y < |m.entries| {
        assert Apart(b, m, x, y);
      }
    }
    forall id | 0 <= id < b.maxEntries && !Filled(w, id)
      ensures w.ord[id] == 0
    {
      assert !Filled(m, id);
    }
  }

  lemma DrawBytesKeeps(b: Bank, m: Memory, t: nat, id: nat)
    requires MemOk(b, m) && id < |m.entries| && m.entries[id] == Entry(t, None, false) && t < |b.jobs|
    ensures var w := DrawBytes(m, id, |b.jobs[t].data|); MemOk(b, w) && Extends(m, w, t)
  {
    var w := DrawBytes(m, id, |b.jobs[t].data|);
    forall x | 0 <= x < |w.entries|
      ensures EntryOk(b, w, x)
    {
      assert EntryOk(b, m, x);
    }
    forall x, y | 0 <= x < y < |w.entries|
      ensures Apart(b, w, x, y)
    {
      assert Apart(b, m, x, y) && EntryOk(b, m, x) && EntryOk(b, m, y);
    }
    forall x | 0 <= x < b.maxEntries && !Filled(w, x)
      ensures w.ord[x] == 0
    {
      assert !Filled(m, x);
    }
  }

  /** Writing one range leaves every other range alone. */
  lemma Splice(bytes: seq<Byte>, at: nat, d: Data, p: nat, n: nat)
    requires at + |d| <= |bytes| && p + n <= |bytes|
    requires p + n <= at || at + |d| <= p
    ensures (bytes[..at] + d + bytes[at + |d|..])[p..p + n] == bytes[p..p + n]
  {
  }

  lemma WrittenReads(b: Bank, m: Memory, t: nat, id: nat, at: nat)
    requires MemOk(b, m) && t < |b.jobs| && at + |b.jobs[t].data| <= b.maxBytes
    requires id < b.maxEntries && id < |m.entries| && m.entries[id] == Entry(t, Some(at), false)
    ensures EntryOk(b, Written(b, m, b.jobs[t], id, at), id)
  {
    var d := b.jobs[t].data;
    var w := Written(b, m, b.jobs[t], id, at);
    assert EntryOk(b, m, id) && !Filled(m, id);
    assert w.bytes[at..at + |d|] == d;
  }

  lemma WrittenOther(b: Bank, m: Memory, t: nat, id: nat, at: nat, x: nat)
    requires MemOk(b, m) && t < |b.jobs| && at + |b.jobs[t].data| <= b.maxBytes
    requires id < b.maxEntries && id < |m.entries| && m.entries[id] == Entry(t, Some(at), false)
    requires x < |m.entries| && x != id
    ensures EntryOk(b, Written(b, m, b.jobs[t], id, at), x)
  {
    var w := Written(b, m, b.jobs[t], id, at);
    assert EntryOk(b, m, x);
    if m.entries[x].filled {
      assert Apart(b, m, if x < id then x else id, if x < id then id else x);
      Splice(m.bytes, at, b.jobs[t].data, m.off[x], m.len[x]);
    }
  }

  lemma WrittenKeeps(b: Bank, m: Memory, t: nat, id: nat, at: nat)
    requires MemOk(b, m) && t < |b.jobs| && at + |b.jobs[t].data| <= b.maxBytes
    requires id < b.maxEntries && id < |m.entries| && m.entries[id] == Entry(t, Some(at), false)
    ensures var w := Written(b, m, b.jobs[t], id, at); MemOk(b, w) && Extends(m, w, t)
  {
    var w := Written(b, m, b.jobs[t], id, at);
    forall x | 0 <= x < |w.entries|
      ensures EntryOk(b, w, x)
    {
      if x == id {
        WrittenReads(b, m, t, id, at);
      } else {
        WrittenOther(b, m, t, id, at, x);
      }
    }
    forall x, y | 0 <= x < y < |w.entries|
      ensures Apart(b, w, x, y)
    {
      assert Apart(b, m, x, y);
    }
    forall x | 0 <= x < b.maxEntries && !Filled(w, x)
      ensures w.ord[x] == 0
    {
      assert !Filled(m, x);
    }
  }
}
