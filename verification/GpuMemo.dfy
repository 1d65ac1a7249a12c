/** The host's side of the memo: passes rerun, tables regrown, misses answered, values produced. */
module GpuMemo {
  import opened Ring
  import opened GpuPass
  import opened GpuRuns

  type Hashing = Key -> nat

  // ----- tables between passes -----

  function View(h: Hashing, slots: seq<Slot>): Pass
    requires |slots| >= 1
  {
    Setup(Discover, h, slots, [], [])
  }

  /** Nothing half written, no key twice, every key reachable from its home. */
  ghost predicate GoodTable(h: Hashing, slots: seq<Slot>) {
    |slots| >= 1 && Quiet(slots) && TableOk(View(h, slots), State(slots, [], []))
  }

  /** The order of a table depends on its slots and the hash alone. */
  lemma SameTable(p: Pass, s: State, q: Pass, w: State)
    requires p.hash == q.hash && |p.start| == |q.start| && w.slots == s.slots && Quiet(s.slots) && TableOk(p, s)
    ensures TableOk(q, w)
  {
    assert forall i: nat :: SlotAt(w, i) == SlotAt(s, i) && !SlotAt(s, i).Claimed?;
    assert forall key, k: nat :: At(p, key, k) == At(q, key, k);
    forall i: nat | i < |q.start|
      ensures SlotOk(q, w, i)
    {
      assert SlotOk(p, s, i);
      if Taken(w, i) {
        var key := KeyAt(q, w, i);
        forall j: nat {:trigger At(q, key, j)} | j < StepsTo(q, key, i)
          ensures Taken(w, At(q, key, j))
        {
          assert Taken(s, At(p, key, j));
        }
      }
    }
    forall i: nat, j: nat
      ensures Distinct(q, w, i, j)
    {
      assert Distinct(p, s, i, j);
    }
  }

  lemma PassStarts(p: Pass)
    requires GoodTable(p.hash, p.start)
    requires p.mode.Insert? ==> DistinctKeys(p.elements) && forall i :: 0 <= i < |p.start| ==> p.start[i].Empty?
    ensures Inv(p, Start(p))
  {
    SameTable(View(p.hash, p.start), State(p.start, [], []), p, Start(p));
    var s := Start(p);
    forall t: nat | t < |p.elements|
      ensures PcOk(p, s, t)
    {
      assert s.pcs[t] == Look(0);
      if p.mode.Insert? {
        assert forall i: nat :: !Taken(s, i);
      }
    }
  }

  lemma PassLeaves(p: Pass, s: State)
    requires Inv(p, s) && Finished(s)
    ensures |s.slots| == |p.start| && GoodTable(p.hash, s.slots)
  {
    forall i | 0 <= i < |s.slots|
      ensures !s.slots[i].Claimed?
    {
      assert SlotOk(p, s, i);
    }
    SameTable(p, s, View(p.hash, s.slots), State(s.slots, [], []));
  }

  /** All elements run to their end. */
  predicate Complete(p: Pass, schedule: seq<nat>) {
    Scheduled(p, schedule) && Finished(Run(p, Start(p), schedule))
  }

  function EndOf(p: Pass, schedule: seq<nat>): State
    requires Complete(p, schedule)
  {
    Run(p, Start(p), schedule)
  }

  predicate Flagged(s: State, out: Outcome) {
    exists t :: 0 <= t < |s.pcs| && s.pcs[t] == Done(out)
  }

  // ----- counting slots -----

  function TakenCount(slots: seq<Slot>): (n: nat)
    ensures n <= |slots|
  {
    if slots == [] then 0 else (if slots[0].Empty? then 0 else 1) + TakenCount(slots[1..])
  }

  lemma {:induction false} CountGrows(a: seq<Slot>, c: seq<Slot>)
    requires |a| == |c| && forall i :: 0 <= i < |a| && !a[i].Empty? ==> !c[i].Empty?
    ensures TakenCount(a) <= TakenCount(c)
    ensures (exists i :: 0 <= i < |a| && a[i].Empty? && !c[i].Empty?) ==> TakenCount(a) < TakenCount(c)
    decreases |a|
  {
    if a != [] {
      CountGrows(a[1..], c[1..]);
      if i :| 0 <= i < |a| && a[i].Empty? && !c[i].Empty? {
        assert i > 0 ==> a[1..][i - 1].Empty? && !c[1..][i - 1].Empty?;
      }
    }
  }

  /** A pass that has to be rerun has taken at least one more slot. */
  lemma RerunClaims(p: Pass, s: State)
    requires Inv(p, s) && Finished(s)
    ensures TakenCount(p.start) <= TakenCount(s.slots)
    ensures Flagged(s, Retry) ==> TakenCount(p.start) < TakenCount(s.slots)
  {
    forall i | 0 <= i < |p.start| && !p.start[i].Empty?
      ensures !s.slots[i].Empty?
    {
      assert SinceStart(p, s, i);
    }
    if Flagged(s, Retry) {
      var t :| 0 <= t < |s.pcs| && s.pcs[t] == Done(Retry);
      assert PcOk(p, s, t);
      var i: nat :| NewAt(p, s, i);
      assert p.start[i].Empty? && !s.slots[i].Empty?;
    }
    CountGrows(p.start, s.slots);
  }

  function KeysOf(slots: seq<Slot>): seq<Key>
    requires forall i :: 0 <= i < |slots| ==> slots[i].Published?
  {
    seq(|slots|, i requires 0 <= i < |slots| => slots[i].key)
  }

  /** A pass finds the table full only when it has fewer slots than there are keys. */
  lemma FullMeansMany(p: Pass, s: State, universe: set<Key>)
    requires Inv(p, s) && Finished(s) && Flagged(s, Full)
    requires forall i: nat :: SlotAt(s, i).Published? ==> SlotAt(s, i).key in universe
    requires forall t :: 0 <= t < |p.elements| ==> p.elements[t].key in universe
    ensures |p.start| < |universe|
  {
    PassLeaves(p, s);
    var t :| 0 <= t < |s.pcs| && s.pcs[t] == Done(Full);
    var key := p.elements[t].key;
    assert PcOk(p, s, t);
    forall i | 0 <= i < |s.slots|
      ensures s.slots[i].Published? && s.slots[i].key != key
    {
      assert Other(p, s, At(p, key, StepsTo(p, key, i)), key);
    }
    var keys := KeysOf(s.slots) + [key];
    forall i, j | 0 <= i < j < |keys|
      ensures keys[i] != keys[j]
    {
      assert Distinct(p, s, i, j);
      assert Taken(s, i);
    }
    forall k | k in keys
      ensures k in universe
    {
      var i :| 0 <= i < |keys| && keys[i] == k;
      assert i < |s.slots| ==> SlotAt(s, i).Published? && SlotAt(s, i).key == k;
    }
    Pigeonhole(keys, universe);
  }

  // ----- the engine -----

  datatype Answer = Answer(key: Key, val: nat)

  datatype Engine = Engine(slots: seq<Slot>, answered: seq<Answer>, misses: seq<Miss>)

  predicate SlotIs(e: Engine, i: nat, key: Key, load: nat) {
    i < |e.slots| && e.slots[i] == Published(key, load)
  }

  /** An answer stands in the table. */
  ghost predicate Placed(e: Engine, a: Answer) {
    a.val != PENDING && exists i: nat :: SlotIs(e, i, a.key, a.val)
  }

  ghost predicate OnList(e: Engine, i: nat) {
    exists x: nat :: x < |e.misses| && e.misses[x].slot == i
  }

  /** A slot is answered, and the answer is on record; or it is pending, and it is on the miss list. */
  ghost predicate Accounted(e: Engine, i: nat)
    requires i < |e.slots|
  {
    e.slots[i].Published? ==>
      if e.slots[i].load == PENDING then OnList(e, i) else Answer(e.slots[i].key, e.slots[i].load) in e.answered
  }

  predicate MissIs(e: Engine, m: Miss) {
    m.slot < |e.slots| && e.slots[m.slot] == Published(m.key, PENDING)
  }

  ghost predicate DistinctAnswers(answered: seq<Answer>) {
    forall x, y :: 0 <= x < y < |answered| ==> answered[x].key != answered[y].key
  }

  ghost predicate EngineOk(h: Hashing, e: Engine) {
    && GoodTable(h, e.slots)
    && NoRepeat(e.misses)
    && (forall x :: 0 <= x < |e.misses| ==> MissIs(e, e.misses[x]))
    && (forall i: nat :: i < |e.slots| ==> Accounted(e, i))
    && DistinctAnswers(e.answered)
    && (forall x :: 0 <= x < |e.answered| ==> Placed(e, e.answered[x]))
  }

  function ToFind(keys: seq<Key>): seq<Element> {
    seq(|keys|, x requires 0 <= x < |keys| => Element(keys[x], PENDING))
  }

  function ToPlace(answered: seq<Answer>): seq<Element> {
    seq(|answered|, x requires 0 <= x < |answered| => Element(answered[x].key, answered[x].val))
  }

  /** A discover pass over the elements' keys. */
  function Discovery(h: Hashing, e: Engine, keys: seq<Key>): Pass
    requires |e.slots| >= 1
  {
    Setup(Discover, h, e.slots, e.misses, ToFind(keys))
  }

  function Blank(n: nat): seq<Slot> {
    seq(n, _ => Empty)
  }

  /** The answered keys into an empty table of `cap` slots. */
  function Regrow(h: Hashing, answered: seq<Answer>, cap: nat): Pass
    requires cap >= 1
  {
    Setup(Insert, h, Blank(cap), [], ToPlace(answered))
  }

  function AfterPass(e: Engine, s: State): Engine {
    e.(slots := s.slots, misses := s.misses)
  }

  ghost predicate Present(e: Engine, key: Key) {
    exists i: nat :: i < |e.slots| && e.slots[i].Published? && e.slots[i].key == key
  }

  lemma DiscoveryStarts(h: Hashing, e: Engine, keys: seq<Key>)
    requires EngineOk(h, e)
    ensures var p := Discovery(h, e, keys); Inv(p, Start(p)) && MissOk(p, Start(p))
  {
    var p := Discovery(h, e, keys);
    var s := Start(p);
    PassStarts(p);
    forall i: nat
      ensures ToBeListed(p, s, i)
    {
      if Unanswered(s, i) {
        assert Accounted(e, i);
        var x: nat :| x < |e.misses| && e.misses[x].slot == i;
        assert s.misses[x].slot == i;
      }
    }
    forall x | 0 <= x < |s.misses|
      ensures Recorded(p, s, s.misses[x])
    {
      assert MissIs(e, e.misses[x]);
    }
  }

  /** A pass keeps the engine in order, whatever it resolved. */
  lemma PassKeeps(h: Hashing, e: Engine, keys: seq<Key>, schedule: seq<nat>)
    requires EngineOk(h, e) && Complete(Discovery(h, e, keys), schedule)
    ensures var p := Discovery(h, e, keys); var s := EndOf(p, schedule);
      Inv(p, s) && MissOk(p, s) && EngineOk(h, AfterPass(e, s))
  {
    var p := Discovery(h, e, keys);
    var s := EndOf(p, schedule);
    DiscoveryStarts(h, e, keys);
    RunKeeps(p, Start(p), schedule);
    RunLists(p, Start(p), schedule);
    PassLeaves(p, s);
    var w := AfterPass(e, s);
    forall i: nat | i < |w.slots|
      ensures Accounted(w, i)
    {
      AccountedAfter(h, e, p, s, i);
    }
    forall x | 0 <= x < |w.misses|
      ensures MissIs(w, w.misses[x])
    {
      assert Recorded(p, s, s.misses[x]);
    }
    forall x | 0 <= x < |w.answered|
      ensures Placed(w, w.answered[x])
    {
      var a := e.answered[x];
      assert Placed(e, a);
      var i: nat :| SlotIs(e, i, a.key, a.val);
      assert SinceStart(p, s, i);
      assert SlotIs(w, i, a.key, a.val);
    }
  }

  lemma AccountedAfter(h: Hashing, e: Engine, p: Pass, s: State, i: nat)
    requires EngineOk(h, e) && p.mode.Discover? && p.start == e.slots && Inv(p, s) && MissOk(p, s) && Finished(s) &&
      i < |s.slots|
    ensures Accounted(AfterPass(e, s), i)
  {
    var w := AfterPass(e, s);
    assert ToBeListed(p, s, i) && SourceOk(p, s, i);
    if Unanswered(s, i) {
      assert forall t: nat :: !Enlisting(p, s, t, i);
      var x: nat :| x < |s.misses| && s.misses[x].slot == i;
      assert w.misses[x].slot == i;
    } else if s.slots[i].Published? {
      assert p.start[i] == SlotAt(s, i);
      assert Accounted(e, i);
    }
  }

  lemma CleanPassHolds(p: Pass, s: State, x: nat)
    requires Inv(p, s) && Finished(s) && x < |p.elements| && !Flagged(s, Full) && !Flagged(s, Retry)
    requires s.pcs[x] != Done(Overflow)
    ensures Held(p, s, p.elements[x])
  {
    assert PcOk(p, s, x) && s.pcs[x].Done?;
    assert s.pcs[x] == Done(Retry) ==> Flagged(s, Retry);
    assert s.pcs[x] == Done(Full) ==> Flagged(s, Full);
  }

  /** A pass without flags has every key in the table. */
  lemma CleanPassFinds(h: Hashing, e: Engine, keys: seq<Key>, schedule: seq<nat>, x: nat)
    requires EngineOk(h, e) && Complete(Discovery(h, e, keys), schedule) && x < |keys|
    requires var s := EndOf(Discovery(h, e, keys), schedule); !Flagged(s, Full) && !Flagged(s, Retry)
    ensures Present(AfterPass(e, EndOf(Discovery(h, e, keys), schedule)), keys[x])
  {
    var p := Discovery(h, e, keys);
    var s := EndOf(p, schedule);
    PassKeeps(h, e, keys, schedule);
    CleanPassHolds(p, s, x);
    var i: nat :| HoldsAt(p, s, p.elements[x], i);
    assert AfterPass(e, s).slots[i].key == keys[x];
  }

  // ----- growing -----

  function AnswerKeys(answered: seq<Answer>): (ks: set<Key>)
    ensures |ks| <= |answered|
    ensures forall x :: 0 <= x < |answered| ==> answered[x].key in ks
    ensures forall k :: k in ks ==> exists x :: 0 <= x < |answered| && answered[x].key == k
  {
    if answered == [] then {} else
    var last := |answered| - 1;
    var init := AnswerKeys(answered[..last]);
    assert forall x :: 0 <= x < last ==> answered[..last][x] == answered[x];
    init + {answered[last].key}
  }

  ghost function SlotOf(e: Engine, a: Answer): (i: nat)
    requires Placed(e, a)
    ensures SlotIs(e, i, a.key, a.val)
  {
    var i: nat :| SlotIs(e, i, a.key, a.val);
    i
  }

  /** The table has a slot for every answer. */
  lemma AnswersFit(h: Hashing, e: Engine)
    requires EngineOk(h, e)
    ensures |e.answered| <= |e.slots|
  {
    var places := seq(|e.answered|, x requires 0 <= x < |e.answered| => SlotOf(e, e.answered[x]));
    forall v | v in places
      ensures v in Below(|e.slots|)
    {
      var x :| 0 <= x < |places| && places[x] == v;
      assert SlotIs(e, v, e.answered[x].key, e.answered[x].val);
    }
    Pigeonhole(places, Below(|e.slots|));
  }

  lemma BlankIsGood(h: Hashing, cap: nat)
    requires cap >= 1
    ensures GoodTable(h, Blank(cap))
  {
    assert forall i: nat :: !Taken(State(Blank(cap), [], []), i);
  }

  lemma RegrowStarts(h: Hashing, e: Engine, cap: nat, schedule: seq<nat>)
    requires EngineOk(h, e) && cap >= 1 && Complete(Regrow(h, e.answered, cap), schedule)
    ensures var p := Regrow(h, e.answered, cap); Inv(p, EndOf(p, schedule))
  {
    var p := Regrow(h, e.answered, cap);
    BlankIsGood(h, cap);
    PassStarts(p);
    RunKeeps(p, Start(p), schedule);
  }

  /** In a regrown table every slot holds an answer. */
  lemma RegrownSlot(h: Hashing, e: Engine, p: Pass, s: State, i: nat) returns (x: nat)
    requires EngineOk(h, e) && |p.start| >= 1 && p == Regrow(h, e.answered, |p.start|) && Inv(p, s) &&
      SlotAt(s, i).Published?
    ensures x < |e.answered| && SlotAt(s, i) == Published(e.answered[x].key, e.answered[x].val) &&
      e.answered[x].val != PENDING
  {
    assert SourceOk(p, s, i);
    x :| x < |p.elements| && SlotAt(s, i) == Fresh(p, p.elements[x]);
    assert Placed(e, e.answered[x]);
  }

  lemma InsertResolves(p: Pass, s: State, t: nat)
    requires Inv(p, s) && Finished(s) && p.mode.Insert? && !Flagged(s, Full) && t < |p.elements|
    ensures s.pcs[t] == Done(Resolved)
  {
    assert PcOk(p, s, t);
    assert s.pcs[t] == Done(Full) ==> Flagged(s, Full);
  }

  lemma RegrownPlaces(h: Hashing, e: Engine, p: Pass, s: State, x: nat)
    requires EngineOk(h, e) && |p.start| >= 1 && p == Regrow(h, e.answered, |p.start|) && Inv(p, s)
    requires x < |e.answered| && s.pcs[x] == Done(Resolved)
    ensures Placed(Engine(s.slots, e.answered, []), e.answered[x])
  {
    assert PcOk(p, s, x);
    var i: nat :| HoldsAt(p, s, p.elements[x], i);
    var y := RegrownSlot(h, e, p, s, i);
    assert x == y;
    assert SlotIs(Engine(s.slots, e.answered, []), i, e.answered[x].key, e.answered[x].val);
  }

  lemma RegrownEngine(h: Hashing, e: Engine, p: Pass, s: State)
    requires EngineOk(h, e) && |p.start| >= 1 && p == Regrow(h, e.answered, |p.start|) && Inv(p, s) && Finished(s)
    requires !Flagged(s, Full)
    ensures EngineOk(h, Engine(s.slots, e.answered, []))
  {
    PassLeaves(p, s);
    var w := Engine(s.slots, e.answered, []);
    forall i: nat | i < |w.slots|
      ensures Accounted(w, i)
    {
      if w.slots[i].Published? {
        var x := RegrownSlot(h, e, p, s, i);
        assert w.answered[x] == Answer(w.slots[i].key, w.slots[i].load);
      }
    }
    forall x | 0 <= x < |w.answered|
      ensures Placed(w, w.answered[x])
    {
      InsertResolves(p, s, x);
      RegrownPlaces(h, e, p, s, x);
    }
  }

  /** A rebuild with no fewer slots places every key: the table is never full, and holds exactly the answers. */
  lemma RebuildPlaces(h: Hashing, e: Engine, cap: nat, schedule: seq<nat>)
    requires EngineOk(h, e) && cap >= |e.slots| && Complete(Regrow(h, e.answered, cap), schedule)
    ensures var s := EndOf(Regrow(h, e.answered, cap), schedule);
      && (forall t :: 0 <= t < |s.pcs| ==> s.pcs[t] == Done(Resolved))
      && |s.slots| == cap && EngineOk(h, Engine(s.slots, e.answered, []))
  {
    var p := Regrow(h, e.answered, cap);
    var s := EndOf(p, schedule);
    RegrowStarts(h, e, cap, schedule);
    AnswersFit(h, e);
    RegrowNotFull(h, e, p, s);
    forall t | 0 <= t < |s.pcs|
      ensures s.pcs[t] == Done(Resolved)
    {
      InsertResolves(p, s, t);
    }
    RegrownEngine(h, e, p, s);
  }

  lemma RegrowNotFull(h: Hashing, e: Engine, p: Pass, s: State)
    requires EngineOk(h, e) && |e.answered| <= |p.start| && p == Regrow(h, e.answered, |p.start|) && Inv(p, s) &&
      Finished(s)
    ensures !Flagged(s, Full)
  {
    if Flagged(s, Full) {
      forall i: nat | SlotAt(s, i).Published?
        ensures SlotAt(s, i).key in AnswerKeys(e.answered)
      {
        var x := RegrownSlot(h, e, p, s, i);
      }
      FullMeansMany(p, s, AnswerKeys(e.answered));
    }
  }

  // ----- the discover loop -----

  /** One turn of the loop: the interleaving of the pass, and of the rebuild if there is one. */
  datatype Turn = Turn(pass: seq<nat>, rebuild: seq<nat>)

  /** Four times the slots, the answers only, and an empty miss list. */
  function Regrown(h: Hashing, e: Engine, schedule: seq<nat>): Engine
    requires |e.slots| >= 1 && Complete(Regrow(h, e.answered, 4 * |e.slots|), schedule)
  {
    Engine(EndOf(Regrow(h, e.answered, 4 * |e.slots|), schedule).slots, e.answered, [])
  }

  /** The loop from engine `e` takes these turns and ends in `out`. */
  ghost predicate Discovers(h: Hashing, e: Engine, keys: seq<Key>, turns: seq<Turn>, out: Engine)
    decreases |turns|
  {
    |e.slots| >= 1 && turns != [] && Complete(Discovery(h, e, keys), turns[0].pass) &&
    var s := EndOf(Discovery(h, e, keys), turns[0].pass);
    if Flagged(s, Full) then
      Complete(Regrow(h, e.answered, 4 * |e.slots|), turns[0].rebuild) &&
      Discovers(h, Regrown(h, e, turns[0].rebuild), keys, turns[1..], out)
    else if Flagged(s, Retry) then Discovers(h, AfterPass(e, s), keys, turns[1..], out)
    else |turns| == 1 && out == AfterPass(e, s)
  }

  /** Pending keys are keys of this size. */
  ghost predicate PendingFrom(e: Engine, keys: seq<Key>) {
    forall i: nat :: i < |e.slots| && e.slots[i].Published? && e.slots[i].load == PENDING ==> e.slots[i].key in keys
  }

  lemma PassPending(h: Hashing, e: Engine, keys: seq<Key>, s: State)
    requires |e.slots| >= 1 && Inv(Discovery(h, e, keys), s) && PendingFrom(e, keys)
    ensures PendingFrom(AfterPass(e, s), keys)
  {
    var p := Discovery(h, e, keys);
    forall i: nat | i < |s.slots| && s.slots[i].Published? && s.slots[i].load == PENDING
      ensures s.slots[i].key in keys
    {
      assert SourceOk(p, s, i);
      if t: nat :| t < |p.elements| && SlotAt(s, i) == Fresh(p, p.elements[t]) {
        assert s.slots[i].key == keys[t];
      } else {
        assert e.slots[i] == s.slots[i];
      }
    }
  }

  /**
   * However many passes are rerun and tables regrown: the engine stays in order, and every key ends up in the table.
   */
  lemma {:induction false} DiscoverFinds(h: Hashing, e: Engine, keys: seq<Key>, turns: seq<Turn>, out: Engine)
    requires EngineOk(h, e) && PendingFrom(e, keys) && Discovers(h, e, keys, turns, out)
    ensures EngineOk(h, out) && PendingFrom(out, keys) && out.answered == e.answered
    ensures forall x :: 0 <= x < |keys| ==> Present(out, keys[x])
    decreases |turns|
  {
    var p := Discovery(h, e, keys);
    var s := EndOf(p, turns[0].pass);
    PassKeeps(h, e, keys, turns[0].pass);
    PassPending(h, e, keys, s);
    if Flagged(s, Full) {
      RebuildPlaces(h, e, 4 * |e.slots|, turns[0].rebuild);
      var w := Regrown(h, e, turns[0].rebuild);
      assert PendingFrom(w, keys) by {
        forall i: nat | i < |w.slots|
          ensures w.slots[i].Published? ==> w.slots[i].load != PENDING
        {
          assert Accounted(w, i);
        }
      }
      DiscoverFinds(h, w, keys, turns[1..], out);
    } else if Flagged(s, Retry) {
      DiscoverFinds(h, AfterPass(e, s), keys, turns[1..], out);
    } else {
      forall x | 0 <= x < |keys|
        ensures Present(out, keys[x])
      {
        CleanPassFinds(h, e, keys, turns[0].pass, x);
      }
    }
  }

  // ----- the loop ends -----

  /** Every key in the table is one of these. */
  ghost predicate Within(e: Engine, universe: set<Key>) {
    forall i: nat :: i < |e.slots| && e.slots[i].Published? ==> e.slots[i].key in universe
  }

  /** Turns the loop can take: reruns are bounded by free slots, and the table grows only while it is too small. */
  function TurnBound(total: nat, cap: nat, taken: nat): nat
    requires cap >= 1 && taken <= cap
    decreases total - cap
  {
    cap - taken + 1 + (if cap < total then TurnBound(total, 4 * cap, 0) else 0)
  }

  lemma {:induction false} TurnBoundFalls(total: nat, cap: nat, taken: nat, more: nat)
    requires cap >= 1 && taken <= more <= cap
    ensures TurnBound(total, cap, more) + (more - taken) == TurnBound(total, cap, taken)
  {
  }

  lemma PassWithin(h: Hashing, e: Engine, keys: seq<Key>, s: State, universe: set<Key>)
    requires |e.slots| >= 1 && Inv(Discovery(h, e, keys), s) && Within(e, universe)
    requires forall k :: k in keys ==> k in universe
    ensures Within(AfterPass(e, s), universe)
    ensures forall i: nat :: SlotAt(s, i).Published? ==> SlotAt(s, i).key in universe
  {
    var p := Discovery(h, e, keys);
    forall i: nat | SlotAt(s, i).Published?
      ensures SlotAt(s, i).key in universe
    {
      assert SourceOk(p, s, i);
      if t: nat :| t < |p.elements| && SlotAt(s, i) == Fresh(p, p.elements[t]) {
        assert SlotAt(s, i).key == keys[t];
      } else {
        assert e.slots[i] == s.slots[i];
      }
    }
    assert forall i: nat :: i < |s.slots| ==> SlotAt(s, i) == s.slots[i];
  }

  lemma AnswersWithin(h: Hashing, e: Engine, universe: set<Key>)
    requires EngineOk(h, e) && Within(e, universe)
    ensures forall x :: 0 <= x < |e.answered| ==> e.answered[x].key in universe
  {
    forall x | 0 <= x < |e.answered|
      ensures e.answered[x].key in universe
    {
      assert Placed(e, e.answered[x]);
      var i: nat :| SlotIs(e, i, e.answered[x].key, e.answered[x].val);
    }
  }

  lemma RegrownWithin(h: Hashing, e: Engine, w: Engine, universe: set<Key>)
    requires EngineOk(h, e) && Within(e, universe) && EngineOk(h, w) && w.answered == e.answered && w.misses == []
    ensures Within(w, universe)
  {
    AnswersWithin(h, e, universe);
    forall i: nat | i < |w.slots| && w.slots[i].Published?
      ensures w.slots[i].key in universe
    {
      assert Accounted(w, i);
    }
  }

  /** The turns so far, every one of them flagged, have brought the loop from engine `e` to engine `now`. */
  ghost predicate Discovering(h: Hashing, e: Engine, keys: seq<Key>, turns: seq<Turn>, now: Engine)
    decreases |turns|
  {
    if turns == [] then now == e else
    |e.slots| >= 1 && Complete(Discovery(h, e, keys), turns[0].pass) &&
    var s := EndOf(Discovery(h, e, keys), turns[0].pass);
    if Flagged(s, Full) then
      Complete(Regrow(h, e.answered, 4 * |e.slots|), turns[0].rebuild) &&
      Discovering(h, Regrown(h, e, turns[0].rebuild), keys, turns[1..], now)
    else Flagged(s, Retry) && Discovering(h, AfterPass(e, s), keys, turns[1..], now)
  }

  /** Reruns and rebuilds end: the turns so far stay below a bound that depends on the sizes alone. */
  lemma {:induction false} DiscoverEnds(
    h: Hashing, e: Engine, keys: seq<Key>, turns: seq<Turn>, now: Engine, universe: set<Key>)
    requires EngineOk(h, e) && Discovering(h, e, keys, turns, now)
    requires Within(e, universe) && forall k :: k in keys ==> k in universe
    ensures EngineOk(h, now) && |turns| < TurnBound(|universe|, |e.slots|, TakenCount(e.slots))
    decreases |turns|
  {
    if turns != [] {
      var p := Discovery(h, e, keys);
      var s := EndOf(p, turns[0].pass);
      PassKeeps(h, e, keys, turns[0].pass);
      PassWithin(h, e, keys, s, universe);
      if Flagged(s, Full) {
        FullMeansMany(p, s, universe);
        RebuildPlaces(h, e, 4 * |e.slots|, turns[0].rebuild);
        var w := Regrown(h, e, turns[0].rebuild);
        RegrownWithin(h, e, w, universe);
        DiscoverEnds(h, w, keys, turns[1..], now, universe);
        TurnBoundFalls(|universe|, |w.slots|, 0, TakenCount(w.slots));
      } else {
        RerunClaims(p, s);
        DiscoverEnds(h, AfterPass(e, s), keys, turns[1..], now, universe);
        TurnBoundFalls(|universe|, |e.slots|, TakenCount(e.slots), TakenCount(s.slots));
      }
    }
  }

  /** A turn taken in full: a pass, and a rebuild if the pass asks for one. */
  lemma TurnCompletes(h: Hashing, e: Engine, keys: seq<Key>) returns (turn: Turn)
    requires EngineOk(h, e)
    ensures Complete(Discovery(h, e, keys), turn.pass) && Complete(Regrow(h, e.answered, 4 * |e.slots|), turn.rebuild)
  {
    var p, q := Discovery(h, e, keys), Regrow(h, e.answered, 4 * |e.slots|);
    DiscoveryStarts(h, e, keys);
    var pass := PassCompletes(p, Start(p));
    BlankIsGood(h, 4 * |e.slots|);
    PassStarts(q);
    var rebuild := PassCompletes(q, Start(q));
    turn := Turn(pass, rebuild);
  }

  /** From wherever the loop stands, the next turn can be taken, and then is the last or another flagged one. */
  lemma {:induction false} DiscoverGoesOn(h: Hashing, e: Engine, keys: seq<Key>, turns: seq<Turn>, now: Engine)
    returns (turn: Turn, next: Engine)
    requires EngineOk(h, e) && Discovering(h, e, keys, turns, now)
    ensures Discovers(h, e, keys, turns + [turn], next) || Discovering(h, e, keys, turns + [turn], next)
    decreases |turns|
  {
    if turns == [] {
      turn := TurnCompletes(h, e, keys);
      assert turns + [turn] == [turn] && [turn][1..] == [];
      var s := EndOf(Discovery(h, e, keys), turn.pass);
      next := if Flagged(s, Full) then Regrown(h, e, turn.rebuild) else AfterPass(e, s);
    } else {
      var s := EndOf(Discovery(h, e, keys), turns[0].pass);
      PassKeeps(h, e, keys, turns[0].pass);
      var w := AfterPass(e, s);
      if Flagged(s, Full) {
        RebuildPlaces(h, e, 4 * |e.slots|, turns[0].rebuild);
        w := Regrown(h, e, turns[0].rebuild);
      }
      turn, next := DiscoverGoesOn(h, w, keys, turns[1..], now);
      assert (turns + [turn])[1..] == turns[1..] + [turn];
    }
  }

  // ----- the misses, and their answers -----

  ghost predicate Missed(e: Engine, key: Key) {
    exists x :: 0 <= x < |e.misses| && e.misses[x].key == key
  }

  ghost predicate Known(e: Engine, key: Key) {
    exists x :: 0 <= x < |e.answered| && e.answered[x].key == key
  }

  /** Equal keys are in equal slots. */
  lemma OneSlot(h: Hashing, e: Engine, i: nat, j: nat)
    requires GoodTable(h, e.slots) && i < |e.slots| && j < |e.slots| && e.slots[i].Published? && e.slots[j].Published?
    requires e.slots[i].key == e.slots[j].key
    ensures i == j
  {
    var s := State(e.slots, [], []);
    assert Distinct(View(h, e.slots), s, i, j) && Taken(s, i) && Taken(s, j);
  }

  /** Discovery lists exactly the keys of the size that had no answer, each of them once. */
  lemma MissesExact(h: Hashing, e: Engine, keys: seq<Key>, turns: seq<Turn>, out: Engine)
    requires EngineOk(h, e) && e.misses == [] && Discovers(h, e, keys, turns, out)
    ensures forall key :: Missed(out, key) <==> key in keys && !Known(e, key)
    ensures forall x, y :: 0 <= x < y < |out.misses| ==> out.misses[x].key != out.misses[y].key
  {
    NothingPending(h, e, keys);
    DiscoverFinds(h, e, keys, turns, out);
    forall key
      ensures Missed(out, key) <==> key in keys && !Known(e, key)
    {
      if Missed(out, key) {
        MissIsUnknown(h, out, keys, key);
      }
      if key in keys && !Known(e, key) {
        UnknownIsMissed(h, out, keys, key);
      }
    }
    forall x, y | 0 <= x < y < |out.misses|
      ensures out.misses[x].key != out.misses[y].key
    {
      assert MissIs(out, out.misses[x]) && MissIs(out, out.misses[y]);
      if out.misses[x].key == out.misses[y].key {
        OneSlot(h, out, out.misses[x].slot, out.misses[y].slot);
      }
    }
  }

  lemma MissIsUnknown(h: Hashing, e: Engine, keys: seq<Key>, key: Key)
    requires EngineOk(h, e) && PendingFrom(e, keys) && Missed(e, key)
    ensures key in keys && !Known(e, key)
  {
    var x :| 0 <= x < |e.misses| && e.misses[x].key == key;
    assert MissIs(e, e.misses[x]);
    if Known(e, key) {
      var y :| 0 <= y < |e.answered| && e.answered[y].key == key;
      assert Placed(e, e.answered[y]);
      var i: nat :| SlotIs(e, i, key, e.answered[y].val);
      OneSlot(h, e, i, e.misses[x].slot);
    }
  }

  lemma UnknownIsMissed(h: Hashing, e: Engine, keys: seq<Key>, key: Key)
    requires EngineOk(h, e) && key in keys && !Known(e, key) && forall x :: 0 <= x < |keys| ==> Present(e, keys[x])
    ensures Missed(e, key)
  {
    var x :| 0 <= x < |keys| && keys[x] == key;
    assert Present(e, keys[x]);
    var i: nat :| i < |e.slots| && e.slots[i].Published? && e.slots[i].key == key;
    assert Accounted(e, i);
    AnswerKnown(e, Answer(key, e.slots[i].load));
    var y: nat :| y < |e.misses| && e.misses[y].slot == i;
    assert MissIs(e, e.misses[y]);
  }

  lemma AnswerKnown(e: Engine, a: Answer)
    ensures a in e.answered ==> Known(e, a.key)
  {
  }

  /** An answer to a miss. */
  datatype Reply = Reply(slot: nat, key: Key, val: nat)

  /** The replies answer every miss once, in whatever order. */
  ghost predicate AnswersMisses(e: Engine, replies: seq<Reply>) {
    && (forall x, y :: 0 <= x < y < |replies| ==> replies[x].slot != replies[y].slot)
    && (forall x :: 0 <= x < |replies| ==>
          Miss(replies[x].slot, replies[x].key) in e.misses && replies[x].val != PENDING)
    && (forall i: nat :: OnList(e, i) ==> Replied(replies, i))
  }

  ghost predicate Replied(replies: seq<Reply>, i: nat) {
    exists x :: 0 <= x < |replies| && replies[x].slot == i
  }

  function Reported(replies: seq<Reply>): seq<Answer> {
    seq(|replies|, x requires 0 <= x < |replies| => Answer(replies[x].key, replies[x].val))
  }

  /** Slot by slot, after the replies are written: `p5_setval`. */
  ghost predicate SetAll(slots: seq<Slot>, replies: seq<Reply>, out: seq<Slot>) {
    && |out| == |slots|
    && (forall x :: 0 <= x < |replies| ==>
          replies[x].slot < |out| && out[replies[x].slot] == Published(replies[x].key, replies[x].val))
    && (forall i: nat :: i < |slots| && !Replied(replies, i) ==> out[i] == slots[i])
  }

  method Settle(h: Hashing, e: Engine, replies: seq<Reply>) returns (out: Engine)
    requires EngineOk(h, e) && AnswersMisses(e, replies)
    ensures SetAll(e.slots, replies, out.slots) && out.answered == e.answered + Reported(replies) && out.misses == []
  {
    var slots, answered := e.slots, e.answered;
    for x := 0 to |replies|
      invariant SetAll(e.slots, replies[..x], slots)
      invariant answered == e.answered + Reported(replies[..x])
    {
      var r := replies[x];
      assert Miss(r.slot, r.key) in e.misses;
      var m :| 0 <= m < |e.misses| && e.misses[m] == Miss(r.slot, r.key);
      assert MissIs(e, e.misses[m]);
      ghost var before := slots;
      assert !Replied(replies[..x], r.slot);
      slots := slots[r.slot := slots[r.slot].(load := r.val)];
      answered := answered + [Answer(r.key, r.val)];
      SetOne(e.slots, replies, x, before, slots);
      assert Reported(replies[..x + 1]) == Reported(replies[..x]) + [Answer(r.key, r.val)];
    }
    assert replies[..|replies|] == replies;
    out := Engine(slots, answered, []);
  }

  lemma SetOne(slots: seq<Slot>, replies: seq<Reply>, x: nat, before: seq<Slot>, after: seq<Slot>)
    requires x < |replies| && SetAll(slots, replies[..x], before) && replies[x].slot < |before|
    requires after == before[replies[x].slot := Published(replies[x].key, replies[x].val)]
    requires forall y :: 0 <= y < x ==> replies[y].slot != replies[x].slot
    ensures SetAll(slots, replies[..x + 1], after)
  {
    forall y | 0 <= y < x + 1
      ensures replies[y].slot < |after| && after[replies[y].slot] == Published(replies[y].key, replies[y].val)
    {
      assert y < x ==> replies[..x][y] == replies[y];
    }
    forall i: nat | i < |slots| && !Replied(replies[..x + 1], i)
      ensures after[i] == slots[i]
    {
      assert replies[..x + 1][x].slot != i;
      RepliedMore(replies, x, i);
    }
  }

  lemma RepliedMore(replies: seq<Reply>, x: nat, i: nat)
    requires x < |replies|
    ensures Replied(replies[..x], i) ==> Replied(replies[..x + 1], i)
  {
    if Replied(replies[..x], i) {
      var y :| 0 <= y < x && replies[..x][y].slot == i;
      assert replies[..x + 1][y].slot == i;
    }
  }

  predicate SameKey(a: Slot, c: Slot) {
    (a.Empty? <==> c.Empty?) && (a.Published? ==> c.Published? && c.key == a.key)
  }

  /** Changing values alone leaves the table in order. */
  lemma SameKeysGood(h: Hashing, a: seq<Slot>, c: seq<Slot>)
    requires GoodTable(h, a) && |c| == |a| && forall i :: 0 <= i < |a| ==> SameKey(a[i], c[i])
    ensures GoodTable(h, c)
  {
    var p, s, q, w := View(h, a), State(a, [], []), View(h, c), State(c, [], []);
    assert forall key, k: nat :: At(p, key, k) == At(q, key, k);
    forall i: nat
      ensures Taken(w, i) <==> Taken(s, i)
      ensures Taken(s, i) ==> !SlotAt(s, i).Claimed? && !SlotAt(w, i).Claimed? && KeyAt(q, w, i) == KeyAt(p, s, i)
    {
      assert i < |a| ==> SameKey(a[i], c[i]);
    }
    forall i: nat | i < |c|
      ensures SlotOk(q, w, i)
    {
      assert SlotOk(p, s, i);
      if Taken(w, i) {
        var key := KeyAt(q, w, i);
        forall j: nat {:trigger At(q, key, j)} | j < StepsTo(q, key, i)
          ensures Taken(w, At(q, key, j))
        {
          assert Taken(s, At(p, key, j));
        }
      }
    }
    forall i: nat, j: nat
      ensures Distinct(q, w, i, j)
    {
      assert Distinct(p, s, i, j);
    }
    forall i | 0 <= i < |c|
      ensures !c[i].Claimed?
    {
      assert SameKey(a[i], c[i]);
    }
  }

  lemma ReplyIsMiss(h: Hashing, e: Engine, replies: seq<Reply>, x: nat)
    requires EngineOk(h, e) && AnswersMisses(e, replies) && x < |replies|
    ensures SlotIs(e, replies[x].slot, replies[x].key, PENDING)
  {
    assert Miss(replies[x].slot, replies[x].key) in e.misses;
    var m :| 0 <= m < |e.misses| && e.misses[m] == Miss(replies[x].slot, replies[x].key);
    assert MissIs(e, e.misses[m]);
  }

  lemma SettledSlot(h: Hashing, e: Engine, replies: seq<Reply>, out: Engine, i: nat)
    requires EngineOk(h, e) && AnswersMisses(e, replies) && i < |e.slots|
    requires SetAll(e.slots, replies, out.slots) && out.answered == e.answered + Reported(replies)
    ensures SameKey(e.slots[i], out.slots[i]) && Accounted(out, i)
    ensures out.slots[i].Published? ==> out.slots[i].load != PENDING
  {
    assert Accounted(e, i);
    if Replied(replies, i) {
      var x :| 0 <= x < |replies| && replies[x].slot == i;
      ReplyIsMiss(h, e, replies, x);
      assert out.answered[|e.answered| + x] == Answer(replies[x].key, replies[x].val);
    }
  }

  lemma SettledPlaces(h: Hashing, e: Engine, replies: seq<Reply>, out: Engine, x: nat)
    requires EngineOk(h, e) && AnswersMisses(e, replies)
    requires SetAll(e.slots, replies, out.slots) && out.answered == e.answered + Reported(replies) && x < |out.answered|
    ensures Placed(out, out.answered[x])
  {
    var n := |e.answered|;
    if x < n {
      var a := e.answered[x];
      assert Placed(e, a);
      var i: nat :| SlotIs(e, i, a.key, a.val);
      if Replied(replies, i) {
        var y :| 0 <= y < |replies| && replies[y].slot == i;
        ReplyIsMiss(h, e, replies, y);
      }
      assert SlotIs(out, i, a.key, a.val);
    } else {
      assert SlotIs(out, replies[x - n].slot, replies[x - n].key, replies[x - n].val);
    }
  }

  /** A reply's key had no answer before, and has no other reply. */
  lemma ReplyIsNew(h: Hashing, e: Engine, replies: seq<Reply>, y: nat)
    requires EngineOk(h, e) && AnswersMisses(e, replies) && y < |replies|
    ensures forall x :: 0 <= x < |e.answered| ==> e.answered[x].key != replies[y].key
    ensures forall x :: 0 <= x < |replies| && x != y ==> replies[x].key != replies[y].key
  {
    ReplyIsMiss(h, e, replies, y);
    var j := replies[y].slot;
    forall x | 0 <= x < |e.answered|
      ensures e.answered[x].key != replies[y].key
    {
      assert Placed(e, e.answered[x]);
      var i: nat :| SlotIs(e, i, e.answered[x].key, e.answered[x].val);
      if e.answered[x].key == replies[y].key {
        OneSlot(h, e, i, j);
      }
    }
    forall x | 0 <= x < |replies| && x != y
      ensures replies[x].key != replies[y].key
    {
      ReplyIsMiss(h, e, replies, x);
      if replies[x].key == replies[y].key {
        OneSlot(h, e, replies[x].slot, j);
      }
    }
  }

  lemma SettledAnswers(h: Hashing, e: Engine, replies: seq<Reply>, out: Engine)
    requires EngineOk(h, e) && AnswersMisses(e, replies)
    requires SetAll(e.slots, replies, out.slots) && out.answered == e.answered + Reported(replies)
    ensures DistinctAnswers(out.answered)
  {
    var n := |e.answered|;
    forall x, y | 0 <= x < y < |out.answered|
      ensures out.answered[x].key != out.answered[y].key
    {
      if y >= n {
        ReplyIsNew(h, e, replies, y - n);
      }
    }
  }

  /** After settling nothing is pending, and no key has left the table. */
  lemma SettleKeeps(h: Hashing, e: Engine, replies: seq<Reply>, out: Engine)
    requires EngineOk(h, e) && AnswersMisses(e, replies)
    requires SetAll(e.slots, replies, out.slots) && out.answered == e.answered + Reported(replies) && out.misses == []
    ensures EngineOk(h, out)
    ensures forall key :: Present(e, key) ==> Present(out, key)
  {
    forall i: nat | i < |e.slots|
      ensures SameKey(e.slots[i], out.slots[i]) && Accounted(out, i)
    {
      SettledSlot(h, e, replies, out, i);
    }
    SameKeysGood(h, e.slots, out.slots);
    SettledAnswers(h, e, replies, out);
    forall x | 0 <= x < |out.answered|
      ensures Placed(out, out.answered[x])
    {
      SettledPlaces(h, e, replies, out, x);
    }
    forall key | Present(e, key)
      ensures Present(out, key)
    {
      var i: nat :| i < |e.slots| && e.slots[i].Published? && e.slots[i].key == key;
      assert SameKey(e.slots[i], out.slots[i]);
    }
  }

  // ----- produce -----

  /** `vfind`: the slot that holds the key, or none. */
  method FindSlot(h: Hashing, slots: seq<Slot>, key: Key) returns (r: int)
    requires GoodTable(h, slots)
    ensures r >= 0 ==> r < |slots| && slots[r].Published? && slots[r].key == key
    ensures r < 0 ==> forall x :: 0 <= x < |slots| && slots[x].Published? ==> slots[x].key != key
  {
    ghost var p, s := View(h, slots), State(slots, [], []);
    var cap := |slots|;
    var i, probes := h(key) % cap, 0;
    while probes < cap
      invariant probes <= cap && (probes < cap ==> i == At(p, key, probes)) && i < cap && Passed(p, s, key, probes)
    {
      OneStep(p, key, probes);
      if slots[i].Empty? {
        forall x | 0 <= x < |slots| && slots[x].Published?
          ensures slots[x].key != key
        {
          NotElsewhere(p, s, key, probes, x);
          assert Taken(s, x) && KeyAt(p, s, x) == slots[x].key;
        }
        return -1;
      }
      if slots[i].key == key {
        return i;
      }
      assert Passed(p, s, key, probes + 1) by {
        forall j: nat {:trigger At(p, key, j)} | j < probes + 1
          ensures Other(p, s, At(p, key, j), key)
        {
          if j < probes {
            assert Other(p, s, At(p, key, j), key);
          }
        }
      }
      probes := probes + 1;
      i := if i + 1 == cap then 0 else i + 1;
    }
    forall x | 0 <= x < |slots| && slots[x].Published?
      ensures slots[x].key != key
    {
      assert Other(p, s, At(p, key, StepsTo(p, key, x)), key);
    }
    return -1;
  }

  /** One element of `p5_produce`: the value under its key, or PENDING when the key is absent. */
  method Produce(h: Hashing, e: Engine, key: Key) returns (v: nat)
    requires GoodTable(h, e.slots)
    ensures Present(e, key) ==> Holds(e, key, v)
    ensures !Present(e, key) ==> v == PENDING
  {
    var r := FindSlot(h, e.slots, key);
    if r < 0 {
      return PENDING;
    }
    v := e.slots[r].load;
    assert SlotIs(e, r, key, v);
  }

  ghost predicate Holds(e: Engine, key: Key, v: nat) {
    exists i: nat :: SlotIs(e, i, key, v)
  }

  /** `v` stands under the key in the table, is no placeholder, and was answered. */
  ghost predicate Gives(e: Engine, key: Key, v: nat) {
    Holds(e, key, v) && v != PENDING && Answer(key, v) in e.answered
  }

  ghost predicate AllAnswered(e: Engine) {
    forall i: nat, key, v :: SlotIs(e, i, key, v) ==> v != PENDING && Answer(key, v) in e.answered
  }

  lemma PresentGives(e: Engine, key: Key, v: nat)
    requires AllAnswered(e) && Holds(e, key, v)
    ensures Gives(e, key, v)
  {
  }

  /** Every key is in the table, one by one. */
  ghost predicate AllPresent(e: Engine, keys: seq<Key>) {
    forall x :: 0 <= x < |keys| ==> Present(e, keys[x])
  }

  /** The produce pass over a size whose keys are all in the table. */
  method ProduceAll(h: Hashing, e: Engine, keys: seq<Key>) returns (vals: seq<nat>)
    requires GoodTable(h, e.slots) && AllAnswered(e) && AllPresent(e, keys)
    ensures |vals| == |keys| && forall x :: 0 <= x < |keys| ==> Gives(e, keys[x], vals[x])
  {
    vals := [];
    for x := 0 to |keys|
      invariant |vals| == x && forall y :: 0 <= y < x ==> Gives(e, keys[y], vals[y])
    {
      var v := Produce(h, e, keys[x]);
      PresentGives(e, keys[x], v);
      vals := vals + [v];
    }
  }

  /** After discovery and settling every key of the size has its answer in the table. */
  lemma SettledSize(h: Hashing, e: Engine, keys: seq<Key>, turns: seq<Turn>, found: Engine, replies: seq<Reply>,
      out: Engine)
    requires EngineOk(h, e) && e.misses == [] && Discovers(h, e, keys, turns, found) && AnswersMisses(found, replies)
    requires SetAll(found.slots, replies, out.slots) && out.answered == found.answered + Reported(replies) &&
      out.misses == []
    ensures EngineOk(h, out) && out.answered == e.answered + Reported(replies)
    ensures AllPresent(out, keys) && AllAnswered(out)
  {
    NothingPending(h, e, keys);
    DiscoverFinds(h, e, keys, turns, found);
    SettleKeeps(h, found, replies, out);
    forall i: nat, key, v | SlotIs(out, i, key, v)
      ensures v != PENDING && Answer(key, v) in out.answered
    {
      SettledSlot(h, found, replies, out, i);
      assert Accounted(out, i);
    }
  }

  /** With an empty miss list nothing is pending. */
  lemma NothingPending(h: Hashing, e: Engine, keys: seq<Key>)
    requires EngineOk(h, e) && e.misses == []
    ensures PendingFrom(e, keys)
  {
    forall i: nat | i < |e.slots| && e.slots[i].Published?
      ensures e.slots[i].load != PENDING
    {
      assert Accounted(e, i);
    }
  }

  /** The value was on record for the key before, or a reply to the key's miss brought it. */
  ghost predicate AnsweredBy(e: Engine, replies: seq<Reply>, key: Key, v: nat) {
    || (exists x :: 0 <= x < |e.answered| && e.answered[x] == Answer(key, v))
    || (exists x :: 0 <= x < |replies| && replies[x].key == key && replies[x].val == v)
  }

  lemma RecordedIsAnswered(e: Engine, replies: seq<Reply>, key: Key, v: nat)
    requires Answer(key, v) in e.answered + Reported(replies)
    ensures AnsweredBy(e, replies, key, v)
  {
    if Answer(key, v) !in e.answered {
      var x :| 0 <= x < |replies| && Reported(replies)[x] == Answer(key, v);
    }
  }

  /**
   * One size, end to end: discover with any number of reruns and rebuilds, answer the misses in any order, settle,
   * produce. Every element gets the recorded answer of its own key: no absent and no unanswered key is met.
   */
  method ProduceSize(h: Hashing, e: Engine, keys: seq<Key>, ghost turns: seq<Turn>, found: Engine, replies: seq<Reply>)
    returns (out: Engine, vals: seq<nat>)
    requires EngineOk(h, e) && e.misses == [] && Discovers(h, e, keys, turns, found) && AnswersMisses(found, replies)
    ensures SetAll(found.slots, replies, out.slots) && out.answered == e.answered + Reported(replies) &&
      out.misses == []
    ensures EngineOk(h, out) && |vals| == |keys|
    ensures forall x :: 0 <= x < |keys| ==> Gives(out, keys[x], vals[x])
    ensures forall x :: 0 <= x < |keys| ==> AnsweredBy(e, replies, keys[x], vals[x])
  {
    NothingPending(h, e, keys);
    DiscoverFinds(h, e, keys, turns, found);
    out := Settle(h, found, replies);
    SettledSize(h, e, keys, turns, found, replies, out);
    vals := ProduceAll(h, out, keys);
    forall x | 0 <= x < |keys|
      ensures AnsweredBy(e, replies, keys[x], vals[x])
    {
      RecordedIsAnswered(e, replies, keys[x], vals[x]);
    }
  }
}
