/** Whole passes: they end, the miss list is exact, and what a finished pass leaves is a table to start from. */
module GpuRuns {
  import opened Ring
  import opened GpuPass

  predicate Scheduled(p: Pass, schedule: seq<nat>) {
    forall x :: 0 <= x < |schedule| ==> schedule[x] < |p.elements|
  }

  function Run(p: Pass, s: State, schedule: seq<nat>): (w: State)
    requires |s.pcs| == |p.elements| && Scheduled(p, schedule)
    ensures |w.pcs| == |p.elements|
    decreases |schedule|
  {
    if schedule == [] then s else Run(p, Step(p, s, schedule[0]), schedule[1..])
  }

  lemma {:induction false} RunKeeps(p: Pass, s: State, schedule: seq<nat>)
    requires Inv(p, s) && Scheduled(p, schedule)
    ensures Inv(p, Run(p, s, schedule))
    decreases |schedule|
  {
    if schedule != [] {
      StepKeeps(p, s, schedule[0]);
      RunKeeps(p, Step(p, s, schedule[0]), schedule[1..]);
    }
  }

  // ----- a pass ends -----

  function Rank(p: Pass, pc: Pc): int {
    match pc
    case Look(k) => 2 * (|p.start| - k) + 4
    case Race(k) => 2 * (|p.start| - k) + 3
    case Write(_) => 2
    case Enlist(_) => 1
    case Done(_) => 0
  }

  function Work(p: Pass, pcs: seq<Pc>): int {
    if pcs == [] then 0 else Rank(p, pcs[0]) + Work(p, pcs[1..])
  }

  lemma {:induction false} WorkUpdated(p: Pass, pcs: seq<Pc>, t: nat, pc: Pc)
    requires t < |pcs|
    ensures Work(p, pcs[t := pc]) == Work(p, pcs) - Rank(p, pcs[t]) + Rank(p, pc)
    decreases |pcs|
  {
    if t == 0 {
      assert pcs[t := pc][1..] == pcs[1..];
    } else {
      assert pcs[t := pc][1..] == pcs[1..][t - 1 := pc];
      WorkUpdated(p, pcs[1..], t - 1, pc);
    }
  }

  lemma StepWorks(p: Pass, s: State, t: nat)
    requires Inv(p, s) && t < |p.elements| && !s.pcs[t].Done?
    ensures Work(p, Step(p, s, t).pcs) < Work(p, s.pcs)
  {
    assert PcOk(p, s, t);
    var w := Step(p, s, t);
    assert w.pcs == s.pcs[t := w.pcs[t]];
    WorkUpdated(p, s.pcs, t, w.pcs[t]);
  }

  lemma {:induction false} WorkNatural(p: Pass, pcs: seq<Pc>)
    requires forall t :: 0 <= t < |pcs| ==> Rank(p, pcs[t]) >= 0
    ensures Work(p, pcs) >= 0
    decreases |pcs|
  {
    if pcs != [] {
      WorkNatural(p, pcs[1..]);
    }
  }

  predicate Busy(p: Pass, s: State, schedule: seq<nat>)
    requires |s.pcs| == |p.elements| && Scheduled(p, schedule)
    decreases |schedule|
  {
    schedule == [] || (!s.pcs[schedule[0]].Done? && Busy(p, Step(p, s, schedule[0]), schedule[1..]))
  }

  /** No element waits for another: a pass takes no more steps than the elements' probes are long. */
  lemma {:induction false} PassEnds(p: Pass, s: State, schedule: seq<nat>)
    requires Inv(p, s) && Scheduled(p, schedule) && Busy(p, s, schedule)
    ensures |schedule| <= Work(p, s.pcs)
    decreases |schedule|
  {
    WorkOfInv(p, s);
    if schedule != [] {
      StepKeeps(p, s, schedule[0]);
      StepWorks(p, s, schedule[0]);
      PassEnds(p, Step(p, s, schedule[0]), schedule[1..]);
    }
  }

  predicate Finished(s: State) {
    forall t :: 0 <= t < |s.pcs| ==> s.pcs[t].Done?
  }

  /** A pass can be run to its end from wherever it stands. */
  lemma PassCompletes(p: Pass, s: State) returns (schedule: seq<nat>)
    requires Inv(p, s)
    ensures Scheduled(p, schedule) && Finished(Run(p, s, schedule))
    decreases Work(p, s.pcs)
  {
    if Finished(s) {
      return [];
    }
    var t :| 0 <= t < |s.pcs| && !s.pcs[t].Done?;
    StepKeeps(p, s, t);
    StepWorks(p, s, t);
    WorkOfInv(p, Step(p, s, t));
    var rest := PassCompletes(p, Step(p, s, t));
    schedule := [t] + rest;
    assert schedule[1..] == rest;
  }

  lemma WorkOfInv(p: Pass, s: State)
    requires Inv(p, s)
    ensures Work(p, s.pcs) >= 0
  {
    forall t | 0 <= t < |s.pcs|
      ensures Rank(p, s.pcs[t]) >= 0
    {
      assert PcOk(p, s, t);
    }
    WorkNatural(p, s.pcs);
  }

  // ----- the miss list -----

  predicate Enlisting(p: Pass, s: State, t: nat, i: nat) {
    t < |p.elements| && t < |s.pcs| && s.pcs[t].Enlist? && At(p, p.elements[t].key, s.pcs[t].k) == i
  }

  ghost predicate Listed(s: State, i: nat) {
    exists x: nat :: x < |s.misses| && s.misses[x].slot == i
  }

  predicate Unanswered(s: State, i: nat) {
    SlotAt(s, i).Published? && SlotAt(s, i).load == PENDING
  }

  ghost predicate ToBeListed(p: Pass, s: State, i: nat) {
    Unanswered(s, i) ==> Listed(s, i) || exists t: nat :: Enlisting(p, s, t, i)
  }

  predicate Recorded(p: Pass, s: State, m: Miss) {
    m.slot < |p.start| && SlotAt(s, m.slot) == Published(m.key, PENDING)
  }

  ghost predicate OneLister(p: Pass, s: State, t: nat, u: nat, i: nat) {
    Enlisting(p, s, t, i) && Enlisting(p, s, u, i) ==> t == u
  }

  ghost predicate NoRepeat(misses: seq<Miss>) {
    forall x, y :: 0 <= x < y < |misses| ==> misses[x].slot != misses[y].slot
  }

  ghost predicate MissOk(p: Pass, s: State) {
    && p.mode.Discover?
    && NoRepeat(s.misses)
    && (forall x :: 0 <= x < |s.misses| ==> Recorded(p, s, s.misses[x]))
    && (forall i: nat :: ToBeListed(p, s, i))
    && (forall t: nat, i: nat :: Enlisting(p, s, t, i) ==> !Listed(s, i))
    && (forall t: nat, u: nat, i: nat :: OneLister(p, s, t, u, i))
    && (forall t: nat :: t < |s.pcs| ==> s.pcs[t] != Done(Overflow))
  }

  /** There is always room for one more miss: listed slots are distinct, and the one to be listed is another. */
  lemma ListHasRoom(p: Pass, s: State, t: nat, i: nat)
    requires Inv(p, s) && MissOk(p, s) && Enlisting(p, s, t, i)
    ensures |s.misses| < |p.start|
  {
    assert PcOk(p, s, t);
    OneStep(p, p.elements[t].key, s.pcs[t].k);
    var slots := seq(|s.misses|, x requires 0 <= x < |s.misses| => s.misses[x].slot) + [i];
    assert !Listed(s, i);
    forall x, y | 0 <= x < y < |slots|
      ensures slots[x] != slots[y]
    {
    }
    forall v | v in slots
      ensures v in Below(|p.start|)
    {
      var x :| 0 <= x < |slots| && slots[x] == v;
      assert x < |s.misses| ==> Recorded(p, s, s.misses[x]);
    }
    Pigeonhole(slots, Below(|p.start|));
  }

  lemma MissLook(p: Pass, s: State, t: nat)
    requires Inv(p, s) && MissOk(p, s) && t < |p.elements| && (s.pcs[t].Look? || s.pcs[t].Race? || s.pcs[t].Done?)
    ensures MissOk(p, Step(p, s, t))
  {
    var w := Step(p, s, t);
    StepKeeps(p, s, t);
    assert w.misses == s.misses;
    assert forall u: nat, i: nat :: Enlisting(p, w, u, i) ==> Enlisting(p, s, u, i);
    forall x | 0 <= x < |w.misses|
      ensures Recorded(p, w, w.misses[x])
    {
      assert Recorded(p, s, s.misses[x]) && GrowsAt(p, s, w, s.misses[x].slot);
    }
    forall i: nat
      ensures ToBeListed(p, w, i)
    {
      assert ToBeListed(p, s, i);
      if Unanswered(w, i) {
        assert Unanswered(s, i);
        if u: nat :| Enlisting(p, s, u, i) {
          assert Enlisting(p, w, u, i);
        } else {
          assert Listed(s, i);
          var x: nat :| x < |s.misses| && s.misses[x].slot == i;
          assert w.misses[x].slot == i;
        }
      }
    }
    forall u: nat, i: nat | Enlisting(p, w, u, i)
      ensures !Listed(w, i)
    {
      assert Enlisting(p, s, u, i) && !Listed(s, i);
    }
    forall u: nat, v: nat, i: nat
      ensures OneLister(p, w, u, v, i)
    {
      assert OneLister(p, s, u, v, i);
    }
  }

  lemma MissWrite(p: Pass, s: State, t: nat)
    requires Inv(p, s) && MissOk(p, s) && t < |p.elements| && s.pcs[t].Write?
    ensures MissOk(p, Step(p, s, t))
  {
    var w, c := Step(p, s, t), At(p, p.elements[t].key, s.pcs[t].k);
    StepKeeps(p, s, t);
    assert PcOk(p, s, t);
    assert w.misses == s.misses;
    forall u: nat, i: nat | Enlisting(p, w, u, i)
      ensures if u == t then i == c else Enlisting(p, s, u, i) && i != c
    {
      if u != t {
        assert Enlisting(p, s, u, i) && PcOk(p, s, u);
      }
    }
    forall x | 0 <= x < |w.misses|
      ensures Recorded(p, w, w.misses[x]) && w.misses[x].slot != c
    {
      assert Recorded(p, s, s.misses[x]) && GrowsAt(p, s, w, s.misses[x].slot);
    }
    forall i: nat
      ensures ToBeListed(p, w, i)
    {
      assert ToBeListed(p, s, i);
      if i == c {
        assert Enlisting(p, w, t, i);
      } else if Unanswered(w, i) {
        assert Unanswered(s, i);
        if u: nat :| Enlisting(p, s, u, i) {
          assert Enlisting(p, w, u, i);
        } else {
          var x: nat :| x < |s.misses| && s.misses[x].slot == i;
          assert w.misses[x].slot == i;
        }
      }
    }
    forall u: nat, i: nat | Enlisting(p, w, u, i)
      ensures !Listed(w, i)
    {
      if u != t {
        assert Enlisting(p, s, u, i) && !Listed(s, i);
      }
    }
    forall u: nat, v: nat, i: nat
      ensures OneLister(p, w, u, v, i)
    {
      assert OneLister(p, s, u, v, i);
    }
  }

  lemma MissEnlist(p: Pass, s: State, t: nat)
    requires Inv(p, s) && MissOk(p, s) && t < |p.elements| && s.pcs[t].Enlist?
    ensures MissOk(p, Step(p, s, t))
  {
    var w, c := Step(p, s, t), At(p, p.elements[t].key, s.pcs[t].k);
    assert Enlisting(p, s, t, c);
    ListHasRoom(p, s, t, c);
    assert PcOk(p, s, t);
    assert w.misses == s.misses + [Miss(c, p.elements[t].key)] && w.slots == s.slots;
    OneStep(p, p.elements[t].key, s.pcs[t].k);
    forall x | 0 <= x < |w.misses|
      ensures Recorded(p, w, w.misses[x]) && (x < |s.misses| ==> w.misses[x].slot != c)
    {
      if x < |s.misses| {
        assert Recorded(p, s, s.misses[x]);
        assert !Listed(s, c);
      }
    }
    forall i: nat
      ensures ToBeListed(p, w, i)
    {
      assert ToBeListed(p, s, i);
      if i == c {
        assert w.misses[|s.misses|].slot == i;
      } else if Unanswered(w, i) {
        assert Unanswered(s, i);
        if u: nat :| Enlisting(p, s, u, i) {
          assert Enlisting(p, w, u, i);
        } else {
          var x: nat :| x < |s.misses| && s.misses[x].slot == i;
          assert w.misses[x].slot == i;
        }
      }
    }
    forall u: nat, i: nat | Enlisting(p, w, u, i)
      ensures !Listed(w, i)
    {
      assert Enlisting(p, s, u, i) && !Listed(s, i) && OneLister(p, s, t, u, i);
    }
    forall u: nat, v: nat, i: nat
      ensures OneLister(p, w, u, v, i)
    {
      assert OneLister(p, s, u, v, i);
    }
  }

  lemma {:induction false} RunLists(p: Pass, s: State, schedule: seq<nat>)
    requires Inv(p, s) && MissOk(p, s) && Scheduled(p, schedule)
    ensures MissOk(p, Run(p, s, schedule))
    decreases |schedule|
  {
    if schedule != [] {
      var t := schedule[0];
      StepKeeps(p, s, t);
      match s.pcs[t] {
        case Write(_) => MissWrite(p, s, t);
        case Enlist(_) => MissEnlist(p, s, t);
        case _ => MissLook(p, s, t);
      }
      RunLists(p, Step(p, s, t), schedule[1..]);
    }
  }
}
