/**
 * One kernel pass over a claim/publish table: every element probes for its key, one atomic access at a time, in any
 * order. A slot goes from empty to claimed to published; nobody waits for a slot that is being written.
 */
module GpuPass {
  import opened Ring

  datatype Key = Key(k0: nat, k1: nat)

  /** `load` is the memo's value or the filter's ordinal. */
  datatype Slot = Empty | Claimed(owner: nat) | Published(key: Key, load: nat)

  const PENDING: nat := 0xFFFF_FFFF

  /** What an element brings: its key and, for a filter or a rebuild, the ordinal or value it puts. */
  datatype Element = Element(key: Key, put: nat)

  /** `p5_discover`, `vput` as the claim pass calls it, `p5_insert`. */
  datatype Mode = Discover | Filter | Insert

  datatype Miss = Miss(slot: nat, key: Key)

  /** A pass: the table and the miss list it starts from, and its elements. */
  datatype Setup = Setup(mode: Mode, hash: Key -> nat, start: seq<Slot>, listed: seq<Miss>, elements: seq<Element>)

  type Pass = p: Setup | |p.start| >= 1 witness Setup(Discover, (k: Key) => 0, [Empty], [], [])

  /** Resolved; flag bit 16; flag bit 2; flag bit 1. */
  datatype Outcome = Resolved | Retry | Full | Overflow

  datatype Pc = Look(k: nat) | Race(k: nat) | Write(k: nat) | Enlist(k: nat) | Done(out: Outcome)

  datatype State = State(slots: seq<Slot>, misses: seq<Miss>, pcs: seq<Pc>)

  function Home(p: Pass, key: Key): nat {
    p.hash(key) % |p.start|
  }

  /** The slot a probe for `key` looks at after `k` steps. */
  function At(p: Pass, key: Key, k: nat): nat {
    Round(|p.start|, Home(p, key), k)
  }

  function SlotAt(s: State, i: nat): Slot {
    if i < |s.slots| then s.slots[i] else Empty
  }

  // ----- steps -----

  function Goto(s: State, t: nat, pc: Pc): State
    requires t < |s.pcs|
  {
    s.(pcs := s.pcs[t := pc])
  }

  function Put(s: State, i: nat, slot: Slot): State {
    if i < |s.slots| then s.(slots := s.slots[i := slot]) else s
  }

  /** On to the next slot, unless every slot has been looked at. */
  function Onward(p: Pass, k: nat): Pc {
    if k + 1 >= |p.start| then Done(Full) else Look(k + 1)
  }

  function Min(x: nat, y: nat): nat {
    if x < y then x else y
  }

  function Looked(p: Pass, s: State, t: nat, k: nat): State
    requires t < |p.elements| && t < |s.pcs|
  {
    var e := p.elements[t];
    var i := At(p, e.key, k);
    match SlotAt(s, i)
    case Empty => Goto(s, t, Race(k))
    case Claimed(_) => Goto(s, t, if p.mode.Insert? then Onward(p, k) else Done(Retry))
    case Published(key, load) =>
      if p.mode.Insert? || key != e.key then Goto(s, t, Onward(p, k))
      else Goto(if p.mode.Filter? then Put(s, i, Published(key, Min(load, e.put))) else s, t, Done(Resolved))
  }

  /** What the claimant publishes. */
  function Fresh(p: Pass, e: Element): Slot {
    Published(e.key, if p.mode.Discover? then PENDING else e.put)
  }

  /** One atomic access by element `t`. */
  function Step(p: Pass, s: State, t: nat): (w: State)
    requires t < |p.elements| && t < |s.pcs|
    ensures |w.pcs| == |s.pcs|
  {
    var e := p.elements[t];
    match s.pcs[t]
    case Look(k) => Looked(p, s, t, k)
    case Race(k) =>
      var i := At(p, e.key, k);
      if SlotAt(s, i) == Empty then Goto(Put(s, i, Claimed(t)), t, Write(k))
      else Goto(s, t, if p.mode.Insert? then Onward(p, k) else Done(Retry))
    case Write(k) =>
      Goto(Put(s, At(p, e.key, k), Fresh(p, e)), t, if p.mode.Discover? then Enlist(k) else Done(Resolved))
    case Enlist(k) =>
      if |s.misses| < |p.start| then Goto(s.(misses := s.misses + [Miss(At(p, e.key, k), e.key)]), t, Done(Resolved))
      else Goto(s, t, Done(Overflow))
    case Done(_) => s
  }

  function Start(p: Pass): State {
    State(p.start, p.listed, seq(|p.elements|, _ => Look(0)))
  }

  // ----- tables between passes -----

  predicate Quiet(slots: seq<Slot>) {
    forall i :: 0 <= i < |slots| ==> !slots[i].Claimed?
  }

  // ----- the invariant -----

  predicate Taken(s: State, i: nat) {
    !SlotAt(s, i).Empty?
  }

  /** The key a taken slot stands for, written or about to be. */
  function KeyAt(p: Pass, s: State, i: nat): Key {
    match SlotAt(s, i)
    case Published(key, _) => key
    case Claimed(owner) => if owner < |p.elements| then p.elements[owner].key else Key(0, 0)
    case Empty => Key(0, 0)
  }

  predicate Other(p: Pass, s: State, i: nat, key: Key) {
    Taken(s, i) && KeyAt(p, s, i) != key
  }

  ghost predicate Passed(p: Pass, s: State, key: Key, k: nat) {
    forall j: nat {:trigger At(p, key, j)} :: j < k ==> Other(p, s, At(p, key, j), key)
  }

  function StepsTo(p: Pass, key: Key, i: nat): (k: nat)
    requires i < |p.start|
    ensures k < |p.start| && At(p, key, k) == i
  {
    Steps(|p.start|, Home(p, key), i)
  }

  lemma OneStep(p: Pass, key: Key, k: nat)
    requires k < |p.start|
    ensures At(p, key, k) < |p.start| && StepsTo(p, key, At(p, key, k)) == k
  {
    StepsUnique(|p.start|, Home(p, key), k);
  }

  ghost predicate Chained(p: Pass, s: State, i: nat, key: Key)
    requires i < |p.start|
  {
    forall j: nat {:trigger At(p, key, j)} :: j < StepsTo(p, key, i) ==> Taken(s, At(p, key, j))
  }

  predicate Distinct(p: Pass, s: State, i: nat, j: nat) {
    Taken(s, i) && Taken(s, j) && KeyAt(p, s, i) == KeyAt(p, s, j) ==> i == j
  }

  /** A claimed slot has a claimant about to write it. */
  predicate ClaimOk(p: Pass, s: State, i: nat) {
    SlotAt(s, i).Claimed? ==>
      var t := SlotAt(s, i).owner;
      t < |p.elements| && t < |s.pcs| && s.pcs[t].Write? && At(p, p.elements[t].key, s.pcs[t].k) == i
  }

  ghost predicate SlotOk(p: Pass, s: State, i: nat)
    requires i < |p.start|
  {
    ClaimOk(p, s, i) && (Taken(s, i) ==> Chained(p, s, i, KeyAt(p, s, i)))
  }

  ghost predicate TableOk(p: Pass, s: State) {
    && |s.slots| == |p.start|
    && (forall i: nat :: i < |p.start| ==> SlotOk(p, s, i))
    && (forall i: nat, j: nat :: Distinct(p, s, i, j))
  }

  /** A published slot keeps its key; a value stays, an ordinal may only fall. */
  predicate SlotGrows(p: Pass, a: Slot, c: Slot) {
    match a
    case Empty => true
    case Claimed(owner) => c == a || (owner < |p.elements| && c == Fresh(p, p.elements[owner]))
    case Published(key, load) => c.Published? && c.key == key && c.load <= load && (!p.mode.Filter? ==> c.load == load)
  }

  predicate GrowsAt(p: Pass, s: State, w: State, i: nat) {
    SlotGrows(p, SlotAt(s, i), SlotAt(w, i))
  }

  ghost predicate Grows(p: Pass, s: State, w: State) {
    forall i: nat :: GrowsAt(p, s, w, i)
  }

  /** Slot `i` holds the element's key, under no higher an ordinal when ordinals count. */
  predicate HoldsAt(p: Pass, s: State, e: Element, i: nat) {
    SlotAt(s, i).Published? && SlotAt(s, i).key == e.key && (p.mode.Filter? ==> SlotAt(s, i).load <= e.put)
  }

  ghost predicate Held(p: Pass, s: State, e: Element) {
    exists i: nat :: HoldsAt(p, s, e, i)
  }

  /** A slot that was empty at the start of the pass and is taken. */
  predicate NewAt(p: Pass, s: State, i: nat) {
    i < |p.start| && p.start[i].Empty? && Taken(s, i)
  }

  ghost predicate Claims(p: Pass, s: State) {
    exists i: nat :: NewAt(p, s, i)
  }

  ghost predicate Absent(p: Pass, s: State, key: Key) {
    forall i: nat :: Taken(s, i) ==> KeyAt(p, s, i) != key
  }

  /** What an element that is still probing knows. */
  ghost predicate Probing(p: Pass, s: State, t: nat, k: nat)
    requires t < |p.elements|
  {
    var key := p.elements[t].key;
    k < |p.start| && Passed(p, s, key, k) && (p.mode.Insert? ==> Absent(p, s, key))
  }

  predicate WasEmpty(p: Pass, i: nat) {
    i < |p.start| && p.start[i].Empty?
  }

  ghost predicate PcOk(p: Pass, s: State, t: nat)
    requires t < |p.elements| && t < |s.pcs|
  {
    var e := p.elements[t];
    match s.pcs[t]
    case Look(k) => Probing(p, s, t, k)
    case Race(k) => Probing(p, s, t, k) && WasEmpty(p, At(p, e.key, k))
    case Write(k) => k < |p.start| && SlotAt(s, At(p, e.key, k)) == Claimed(t)
    case Enlist(k) => p.mode.Discover? && k < |p.start| && SlotAt(s, At(p, e.key, k)) == Published(e.key, PENDING)
    case Done(Resolved) => Held(p, s, e)
    case Done(Retry) => !p.mode.Insert? && Claims(p, s)
    case Done(Full) => Passed(p, s, e.key, |p.start|)
    case Done(Overflow) => p.mode.Discover? && |s.misses| >= |p.start|
  }

  /** Keys to be inserted differ from each other. */
  ghost predicate DistinctKeys(elements: seq<Element>) {
    forall t, u :: 0 <= t < u < |elements| ==> elements[t].key != elements[u].key
  }

  /** A published slot is as it was at the start of the pass, or as some element published it. */
  ghost predicate SourceOk(p: Pass, s: State, i: nat) {
    SlotAt(s, i).Published? ==>
      (i < |p.start| && p.start[i] == SlotAt(s, i)) ||
      exists t: nat :: t < |p.elements| && SlotAt(s, i) == Fresh(p, p.elements[t])
  }

  predicate SinceStart(p: Pass, s: State, i: nat) {
    i < |p.start| ==> SlotGrows(p, p.start[i], SlotAt(s, i))
  }

  ghost predicate Inv(p: Pass, s: State) {
    && |s.pcs| == |p.elements|
    && TableOk(p, s)
    && (forall t: nat :: t < |p.elements| ==> PcOk(p, s, t))
    && (forall i: nat :: SourceOk(p, s, i))
    && (forall i: nat :: SinceStart(p, s, i))
    && Quiet(p.start)
    && (p.mode.Insert? ==> DistinctKeys(p.elements))
  }

  // ----- each step keeps it -----

  lemma GrowsTaken(p: Pass, s: State, w: State, i: nat)
    requires GrowsAt(p, s, w, i) && Taken(s, i) && ClaimOk(p, s, i)
    ensures Taken(w, i) && KeyAt(p, w, i) == KeyAt(p, s, i)
  {
  }

  lemma PassedGrows(p: Pass, s: State, w: State, key: Key, k: nat)
    requires TableOk(p, s) && Grows(p, s, w) && Passed(p, s, key, k)
    ensures Passed(p, w, key, k)
  {
    forall j: nat {:trigger At(p, key, j)} | j < k
      ensures Other(p, w, At(p, key, j), key)
    {
      var i := At(p, key, j);
      assert Other(p, s, i, key) && GrowsAt(p, s, w, i) && SlotOk(p, s, i);
      GrowsTaken(p, s, w, i);
    }
  }

  lemma HeldGrows(p: Pass, s: State, w: State, e: Element)
    requires Grows(p, s, w) && Held(p, s, e)
    ensures Held(p, w, e)
  {
    var i: nat :| HoldsAt(p, s, e, i);
    assert GrowsAt(p, s, w, i);
    assert HoldsAt(p, w, e, i);
  }

  lemma ClaimsGrow(p: Pass, s: State, w: State)
    requires Grows(p, s, w) && Claims(p, s)
    ensures Claims(p, w)
  {
    var i: nat :| NewAt(p, s, i);
    assert GrowsAt(p, s, w, i);
    assert NewAt(p, w, i);
  }

  /** A step of `t` touches no slot claimed by another, and takes slots for its own key only. */
  predicate OwnSlots(p: Pass, s: State, w: State, t: nat, i: nat)
    requires t < |p.elements|
  {
    && (SlotAt(s, i).Claimed? && SlotAt(s, i).owner != t ==> SlotAt(w, i) == SlotAt(s, i))
    && (Taken(w, i) && !Taken(s, i) ==> KeyAt(p, w, i) == p.elements[t].key)
  }

  ghost predicate Frame(p: Pass, s: State, w: State, t: nat)
    requires t < |p.elements|
  {
    && |w.pcs| == |s.pcs| == |p.elements| && |s.misses| <= |w.misses|
    && (forall u: nat :: u < |p.elements| && u != t ==> w.pcs[u] == s.pcs[u])
    && Grows(p, s, w)
    && (forall i: nat :: OwnSlots(p, s, w, t, i))
  }

  lemma OthersKeep(p: Pass, s: State, w: State, t: nat, u: nat)
    requires t < |p.elements| && u < |p.elements| && u != t && Frame(p, s, w, t)
    requires TableOk(p, s) && PcOk(p, s, u) && (p.mode.Insert? ==> DistinctKeys(p.elements))
    ensures PcOk(p, w, u)
  {
    var e := p.elements[u];
    match s.pcs[u]
    case Look(k) => ProbingKeeps(p, s, w, t, u, k);
    case Race(k) => ProbingKeeps(p, s, w, t, u, k);
    case Write(k) => assert OwnSlots(p, s, w, t, At(p, e.key, k));
    case Enlist(k) => assert GrowsAt(p, s, w, At(p, e.key, k));
    case Done(out) =>
      match out
      case Resolved => HeldGrows(p, s, w, e);
      case Retry => ClaimsGrow(p, s, w);
      case Full => PassedGrows(p, s, w, e.key, |p.start|);
      case Overflow =>
  }

  lemma ProbingKeeps(p: Pass, s: State, w: State, t: nat, u: nat, k: nat)
    requires t < |p.elements| && u < |p.elements| && u != t && Frame(p, s, w, t)
    requires TableOk(p, s) && Probing(p, s, u, k) && (p.mode.Insert? ==> DistinctKeys(p.elements))
    ensures Probing(p, w, u, k)
  {
    var key := p.elements[u].key;
    PassedGrows(p, s, w, key, k);
    if p.mode.Insert? {
      forall i: nat | Taken(w, i)
        ensures KeyAt(p, w, i) != key
      {
        assert OwnSlots(p, s, w, t, i) && GrowsAt(p, s, w, i);
        if Taken(s, i) {
          assert SlotOk(p, s, i);
          GrowsTaken(p, s, w, i);
        } else {
          assert p.elements[t].key != key;
        }
      }
    }
  }

  lemma Assemble(p: Pass, s: State, w: State, t: nat)
    requires Inv(p, s) && t < |p.elements| && Frame(p, s, w, t)
    requires TableOk(p, w) && PcOk(p, w, t) && forall i: nat :: SourceOk(p, w, i)
    ensures Inv(p, w)
  {
    forall u: nat | u < |p.elements|
      ensures PcOk(p, w, u)
    {
      if u != t {
        assert PcOk(p, s, u);
        OthersKeep(p, s, w, t, u);
      }
    }
    forall i: nat
      ensures SinceStart(p, w, i)
    {
      assert SinceStart(p, s, i) && GrowsAt(p, s, w, i);
    }
  }

  /** Table after a step that changed no slot. */
  lemma SameSlots(p: Pass, s: State, w: State, t: nat)
    requires Inv(p, s) && t < |p.elements| && !s.pcs[t].Write? && w.slots == s.slots
    requires |w.pcs| == |s.pcs| && (forall u: nat :: u < |p.elements| && u != t ==> w.pcs[u] == s.pcs[u])
    requires |s.misses| <= |w.misses|
    ensures TableOk(p, w) && Frame(p, s, w, t) && forall i: nat :: SourceOk(p, w, i)
  {
    forall i: nat
      ensures SlotAt(w, i) == SlotAt(s, i) && KeyAt(p, w, i) == KeyAt(p, s, i) && SourceOk(p, w, i)
    {
      assert SourceOk(p, s, i);
    }
    forall i: nat | i < |p.start|
      ensures SlotOk(p, w, i)
    {
      assert SlotOk(p, s, i);
      ChainedFrame(p, s, w, i, KeyAt(p, s, i));
    }
    forall i: nat, j: nat
      ensures Distinct(p, w, i, j)
    {
      assert Distinct(p, s, i, j);
    }
    forall i: nat
      ensures GrowsAt(p, s, w, i) && OwnSlots(p, s, w, t, i)
    {
      assert SlotAt(w, i) == SlotAt(s, i);
    }
  }

  lemma ChainedFrame(p: Pass, s: State, w: State, i: nat, key: Key)
    requires i < |p.start| && forall j: nat :: Taken(s, j) ==> Taken(w, j)
    ensures Chained(p, s, i, key) ==> Chained(p, w, i, key)
  {
    if Chained(p, s, i, key) {
      forall j: nat {:trigger At(p, key, j)} | j < StepsTo(p, key, i)
        ensures Taken(w, At(p, key, j))
      {
        assert Taken(s, At(p, key, j));
      }
    }
  }

  lemma PcOnly(p: Pass, s: State, t: nat, pc: Pc)
    requires Inv(p, s) && t < |p.elements| && !s.pcs[t].Write? && PcOk(p, Goto(s, t, pc), t)
    ensures Inv(p, Goto(s, t, pc)) && Frame(p, s, Goto(s, t, pc), t)
  {
    var w := Goto(s, t, pc);
    SameSlots(p, s, w, t);
    Assemble(p, s, w, t);
  }

  lemma ProbingGoto(p: Pass, s: State, t: nat, pc: Pc, k: nat)
    requires t < |p.elements| && t < |s.pcs| && Passed(p, s, p.elements[t].key, k)
    requires p.mode.Insert? ==> Absent(p, s, p.elements[t].key)
    ensures Passed(p, Goto(s, t, pc), p.elements[t].key, k)
    ensures p.mode.Insert? ==> Absent(p, Goto(s, t, pc), p.elements[t].key)
  {
    var w, key := Goto(s, t, pc), p.elements[t].key;
    forall j: nat {:trigger At(p, key, j)} | j < k
      ensures Other(p, w, At(p, key, j), key)
    {
      assert Other(p, s, At(p, key, j), key);
    }
    if p.mode.Insert? {
      forall i: nat | Taken(w, i)
        ensures KeyAt(p, w, i) != key
      {
        assert Taken(s, i);
      }
    }
  }

  /** Going on past a slot taken by another key. */
  lemma GoOn(p: Pass, s: State, t: nat, k: nat)
    requires Inv(p, s) && t < |p.elements| && !s.pcs[t].Write? && Probing(p, s, t, k)
    requires Other(p, s, At(p, p.elements[t].key, k), p.elements[t].key)
    ensures Inv(p, Goto(s, t, Onward(p, k))) && Frame(p, s, Goto(s, t, Onward(p, k)), t)
  {
    var key := p.elements[t].key;
    forall j: nat {:trigger At(p, key, j)} | j < k + 1
      ensures Other(p, s, At(p, key, j), key)
    {
      if j < k {
        assert Other(p, s, At(p, key, j), key);
      }
    }
    ProbingGoto(p, s, t, Onward(p, k), k + 1);
    PcOnly(p, s, t, Onward(p, k));
  }

  /** Meeting a slot that is being written: somebody claimed it in this pass. */
  lemma GiveUp(p: Pass, s: State, t: nat, i: nat)
    requires Inv(p, s) && t < |p.elements| && !s.pcs[t].Write? && !p.mode.Insert? && NewAt(p, s, i)
    ensures Inv(p, Goto(s, t, Done(Retry))) && Frame(p, s, Goto(s, t, Done(Retry)), t)
  {
    assert NewAt(p, Goto(s, t, Done(Retry)), i);
    PcOnly(p, s, t, Done(Retry));
  }

  lemma ClaimedIsNew(p: Pass, s: State, i: nat)
    requires Inv(p, s) && SlotAt(s, i).Claimed?
    ensures NewAt(p, s, i)
  {
    assert SinceStart(p, s, i);
  }

  /** In a pass that inserts distinct keys, a probe meets only other keys. */
  lemma InsertMeetsOthers(p: Pass, s: State, t: nat, i: nat)
    requires p.mode.Insert? && t < |p.elements| && Absent(p, s, p.elements[t].key) && Taken(s, i)
    ensures Other(p, s, i, p.elements[t].key)
  {
  }

  lemma StepLook(p: Pass, s: State, t: nat)
    requires Inv(p, s) && t < |p.elements| && s.pcs[t].Look?
    ensures Inv(p, Step(p, s, t)) && Frame(p, s, Step(p, s, t), t)
  {
    var e, k := p.elements[t], s.pcs[t].k;
    var i := At(p, e.key, k);
    assert PcOk(p, s, t);
    OneStep(p, e.key, k);
    match SlotAt(s, i)
    case Empty =>
      assert SinceStart(p, s, i);
      ProbingGoto(p, s, t, Race(k), k);
      PcOnly(p, s, t, Race(k));
    case Claimed(_) =>
      if p.mode.Insert? {
        InsertMeetsOthers(p, s, t, i);
        GoOn(p, s, t, k);
      } else {
        ClaimedIsNew(p, s, i);
        GiveUp(p, s, t, i);
      }
    case Published(key, load) =>
      if p.mode.Insert? || key != e.key {
        if p.mode.Insert? {
          InsertMeetsOthers(p, s, t, i);
        }
        GoOn(p, s, t, k);
      } else {
        Hit(p, s, t, i);
      }
  }

  /** The key is there: nothing more to do, but for the lower ordinal. */
  lemma Hit(p: Pass, s: State, t: nat, i: nat)
    requires Inv(p, s) && t < |p.elements| && !s.pcs[t].Write? && !p.mode.Insert? && i < |p.start|
    requires SlotAt(s, i).Published? && SlotAt(s, i).key == p.elements[t].key
    ensures var e := p.elements[t];
      var slot := Published(e.key, Min(SlotAt(s, i).load, e.put));
      var w := Goto(if p.mode.Filter? then Put(s, i, slot) else s, t, Done(Resolved));
      Inv(p, w) && Frame(p, s, w, t)
  {
    var e := p.elements[t];
    if p.mode.Filter? {
      var slot := Published(e.key, Min(SlotAt(s, i).load, e.put));
      var w := Goto(Put(s, i, slot), t, Done(Resolved));
      assert SourceOk(p, s, i) && SlotAt(w, i) == slot;
      assert SourceOk(p, w, i) by {
        if slot != SlotAt(s, i) {
          assert slot == Fresh(p, p.elements[t]);
        }
      }
      Rewrite(p, s, w, t, i, slot);
      assert HoldsAt(p, w, e, i);
      Assemble(p, s, w, t);
    } else {
      var w := Goto(s, t, Done(Resolved));
      assert HoldsAt(p, w, e, i);
      PcOnly(p, s, t, Done(Resolved));
    }
  }

  /** Table after a step that rewrote a taken slot under the same key. */
  lemma Rewrite(p: Pass, s: State, w: State, t: nat, i: nat, slot: Slot)
    requires Inv(p, s) && t < |p.elements| && i < |p.start| && slot.Published? && Taken(s, i) &&
      slot.key == KeyAt(p, s, i)
    requires GrowsAt(p, s, w, i) && SourceOk(p, w, i) && (SlotAt(s, i).Claimed? ==> SlotAt(s, i).owner == t)
    requires w.slots == s.slots[i := slot] && w.misses == s.misses && |w.pcs| == |s.pcs|
    requires forall u: nat :: u < |p.elements| && u != t ==> w.pcs[u] == s.pcs[u]
    requires s.pcs[t].Write? ==> At(p, p.elements[t].key, s.pcs[t].k) == i
    ensures TableOk(p, w) && Frame(p, s, w, t) && forall j: nat :: SourceOk(p, w, j)
  {
    forall j: nat
      ensures (Taken(w, j) <==> Taken(s, j)) && (Taken(s, j) ==> KeyAt(p, w, j) == KeyAt(p, s, j))
      ensures GrowsAt(p, s, w, j) && OwnSlots(p, s, w, t, j) && SourceOk(p, w, j)
    {
      assert SourceOk(p, s, j);
      assert j != i ==> SlotAt(w, j) == SlotAt(s, j);
    }
    forall j: nat | j < |p.start|
      ensures SlotOk(p, w, j)
    {
      assert SlotOk(p, s, j);
      ChainedFrame(p, s, w, j, KeyAt(p, s, j));
    }
    forall j: nat, x: nat
      ensures Distinct(p, w, j, x)
    {
      assert Distinct(p, s, j, x);
    }
  }

  lemma StepWrite(p: Pass, s: State, t: nat)
    requires Inv(p, s) && t < |p.elements| && s.pcs[t].Write?
    ensures Inv(p, Step(p, s, t)) && Frame(p, s, Step(p, s, t), t)
  {
    var e, k, w := p.elements[t], s.pcs[t].k, Step(p, s, t);
    var i := At(p, e.key, k);
    assert PcOk(p, s, t);
    OneStep(p, e.key, k);
    assert SlotAt(w, i) == Fresh(p, p.elements[t]);
    Rewrite(p, s, w, t, i, Fresh(p, e));
    assert HoldsAt(p, w, e, i);
    Assemble(p, s, w, t);
  }

  lemma StepRace(p: Pass, s: State, t: nat)
    requires Inv(p, s) && t < |p.elements| && s.pcs[t].Race?
    ensures Inv(p, Step(p, s, t)) && Frame(p, s, Step(p, s, t), t)
  {
    var e, k := p.elements[t], s.pcs[t].k;
    var i := At(p, e.key, k);
    assert PcOk(p, s, t);
    OneStep(p, e.key, k);
    if SlotAt(s, i).Empty? {
      Claim(p, s, t, k);
    } else if p.mode.Insert? {
      InsertMeetsOthers(p, s, t, i);
      GoOn(p, s, t, k);
    } else {
      GiveUp(p, s, t, i);
    }
  }

  /** Claiming the first empty slot of the probe. */
  lemma Claim(p: Pass, s: State, t: nat, k: nat)
    requires Inv(p, s) && t < |p.elements| && s.pcs[t] == Race(k) && SlotAt(s, At(p, p.elements[t].key, k)).Empty?
    ensures var w := Goto(Put(s, At(p, p.elements[t].key, k), Claimed(t)), t, Write(k)); Inv(p, w) && Frame(p, s, w, t)
  {
    var key := p.elements[t].key;
    var i := At(p, key, k);
    var w := Goto(Put(s, i, Claimed(t)), t, Write(k));
    assert PcOk(p, s, t);
    OneStep(p, key, k);
    forall j: nat
      ensures j != i ==> SlotAt(w, j) == SlotAt(s, j)
      ensures GrowsAt(p, s, w, j) && OwnSlots(p, s, w, t, j) && SourceOk(p, w, j) && (Taken(s, j) ==> Taken(w, j))
    {
      assert SourceOk(p, s, j);
    }
    forall j: nat | j < |p.start|
      ensures SlotOk(p, w, j)
    {
      assert SlotOk(p, s, j);
      if j != i {
        ChainedFrame(p, s, w, j, KeyAt(p, s, j));
      } else {
        forall x: nat {:trigger At(p, key, x)} | x < k
          ensures Taken(w, At(p, key, x))
        {
          assert Other(p, s, At(p, key, x), key);
        }
      }
    }
    forall j: nat, x: nat
      ensures Distinct(p, w, j, x)
    {
      assert Distinct(p, s, j, x);
      if j != i {
        NotElsewhere(p, s, key, k, j);
      }
      if x != i {
        NotElsewhere(p, s, key, k, x);
      }
    }
    Assemble(p, s, w, t);
  }

  /** A key whose probe got to an empty slot stands nowhere. */
  lemma NotElsewhere(p: Pass, s: State, key: Key, k: nat, x: nat)
    requires TableOk(p, s) && k < |p.start| && Passed(p, s, key, k) && !Taken(s, At(p, key, k))
    ensures Taken(s, x) ==> KeyAt(p, s, x) != key
  {
    if x < |p.start| {
      assert SlotOk(p, s, x);
      assert StepsTo(p, key, x) < k ==> Other(p, s, At(p, key, StepsTo(p, key, x)), key);
    }
  }

  lemma StepEnlist(p: Pass, s: State, t: nat)
    requires Inv(p, s) && t < |p.elements| && s.pcs[t].Enlist?
    ensures Inv(p, Step(p, s, t)) && Frame(p, s, Step(p, s, t), t)
  {
    var e, k, w := p.elements[t], s.pcs[t].k, Step(p, s, t);
    assert PcOk(p, s, t);
    SameSlots(p, s, w, t);
    assert HoldsAt(p, w, e, At(p, e.key, k));
    Assemble(p, s, w, t);
  }

  /** Every step keeps the invariant, whatever the interleaving. */
  lemma StepKeeps(p: Pass, s: State, t: nat)
    requires Inv(p, s) && t < |p.elements|
    ensures Inv(p, Step(p, s, t)) && Frame(p, s, Step(p, s, t), t)
  {
    match s.pcs[t]
    case Look(_) => StepLook(p, s, t);
    case Race(_) => StepRace(p, s, t);
    case Write(_) => StepWrite(p, s, t);
    case Enlist(_) => StepEnlist(p, s, t);
    case Done(_) => SameSlots(p, s, s, t);
  }
}
