/**
 * Local maps owned by their handles: a table of reused slots with generations and copy counts, which behaves as a store
 * of maps that are never reused, each living exactly as long as somebody holds it.
 */
module HandleMap {
  import opened CoreIr

  type Map = map<string, string>

  datatype SlotState = Free | Live(m: Map) | Dead

  datatype Entry = Entry(gen: nat, count: nat, state: SlotState)

  /** The handle value. `owner` and `counted` are constant among the handles of one thread. */
  datatype Handle = Handle(index: nat, gen: nat)

  const GENERATIONS: nat := 0x1_0000_0000

  // ----- the store the table stands for -----

  /** A map identity holds a map, or has been frozen. */
  datatype Cell = Open(m: Map) | Frozen

  /** Who holds which map: live handles (each a token of its own) to map identities, and what the maps hold. */
  datatype Store = Store(holds: map<nat, nat>, cells: map<nat, Cell>)

  ghost function Copies(holds: map<nat, nat>, id: nat): set<nat> {
    set t | t in holds && holds[t] == id
  }

  /** A map exists exactly while some handle holds it. */
  ghost predicate Owned(s: Store) {
    forall id {:trigger Copies(s.holds, id)} :: id in s.cells <==> Copies(s.holds, id) != {}
  }

  // ----- how the table represents it -----

  function StateOf(c: Cell): SlotState {
    match c
    case Open(m) => Live(m)
    case Frozen => Dead
  }

  /** Slot `i` represents map `id`: its state, and a count of its live handles. */
  ghost predicate Represents(e: Entry, s: Store, id: nat) {
    id in s.cells && e.state == StateOf(s.cells[id]) && e.count == |Copies(s.holds, id)|
  }

  ghost predicate SlotOk(slots: seq<Entry>, s: Store, home: map<nat, nat>, id: nat)
    requires id in home
  {
    home[id] < |slots| && Represents(slots[home[id]], s, id)
  }

  ghost predicate Inhabited(home: map<nat, nat>, i: nat) {
    exists id :: id in home && home[id] == i
  }

  predicate Listed(free: seq<nat>, i: nat) {
    exists x :: 0 <= x < |free| && free[x] == i
  }

  /** Free slots are exactly the uninhabited ones, and are exactly the listed ones. */
  ghost predicate FreeOk(slots: seq<Entry>, free: seq<nat>, home: map<nat, nat>, i: nat)
    requires i < |slots|
  {
    (slots[i].state.Free? <==> Listed(free, i)) && (slots[i].state.Free? <==> !Inhabited(home, i))
  }

  predicate SameHome(home: map<nat, nat>, a: nat, c: nat) {
    a in home && c in home && home[a] == home[c]
  }

  ghost predicate OneHome(home: map<nat, nat>) {
    forall a, c :: SameHome(home, a, c) ==> a == c
  }

  ghost predicate Rep(slots: seq<Entry>, free: seq<nat>, s: Store, home: map<nat, nat>) {
    && Owned(s)
    && home.Keys == s.cells.Keys
    && (forall id {:trigger SlotOk(slots, s, home, id)} :: id in home ==> SlotOk(slots, s, home, id))
    && OneHome(home)
    && (forall i: nat {:trigger FreeOk(slots, free, home, i)} :: i < |slots| ==> FreeOk(slots, free, home, i))
    && (forall x :: 0 <= x < |free| ==> free[x] < |slots|)
    && (forall x, y :: 0 <= x < y < |free| ==> free[x] != free[y])
  }

  /** Handle `h` is the live handle `t`: it names the slot and the generation of its map. */
  predicate Names(slots: seq<Entry>, s: Store, home: map<nat, nat>, h: Handle, t: nat) {
    t in s.holds && s.holds[t] in home && h.index == home[s.holds[t]] && h.index < |slots| &&
      h.gen == slots[h.index].gen
  }

  // ----- copies -----

  lemma AddedCopy(holds: map<nat, nat>, t: nat, id: nat, x: nat)
    requires t !in holds
    ensures Copies(holds[t := id], x) == (if x == id then Copies(holds, x) + {t} else Copies(holds, x))
  {
  }

  lemma RemovedCopy(holds: map<nat, nat>, t: nat, x: nat)
    requires t in holds
    ensures Copies(holds - {t}, x) == Copies(holds, x) - {t}
    ensures holds[t] == x ==> t in Copies(holds, x)
    ensures holds[t] != x ==> t !in Copies(holds, x)
  {
  }

  // ----- what each operation does to the store -----

  function Created(s: Store, t: nat, id: nat): Store {
    Store(s.holds[t := id], s.cells[id := Open(map[])])
  }

  /** The map goes with its last handle. */
  ghost function Dropped(s: Store, t: nat): Store
    requires t in s.holds
  {
    var id := s.holds[t];
    var holds := s.holds - {t};
    Store(holds, if Copies(holds, id) == {} then s.cells - {id} else s.cells)
  }

  function Updated(s: Store, id: nat, c: Cell): Store {
    s.(cells := s.cells[id := c])
  }

  // ----- each operation keeps the representation -----

  lemma HomeOfHandle(slots: seq<Entry>, free: seq<nat>, s: Store, home: map<nat, nat>, h: Handle, t: nat)
    requires Rep(slots, free, s, home) && Names(slots, s, home, h, t)
    ensures s.holds[t] in s.cells && Represents(slots[h.index], s, s.holds[t]) && t in Copies(s.holds, s.holds[t])
  {
    assert SlotOk(slots, s, home, s.holds[t]);
  }

  predicate SameAt(slots: seq<Entry>, after: seq<Entry>, j: nat) {
    j < |slots| && j < |after| && after[j] == slots[j]
  }

  lemma CreatedFree(slots: seq<Entry>, free: seq<nat>, home: map<nat, nat>, i: nat, after: seq<Entry>, left: seq<nat>,
      id: nat, there: map<nat, nat>)
    requires forall j: nat :: j < |slots| ==> FreeOk(slots, free, home, j)
    requires i < |after| && id !in home && there == home[id := i] && after[i].state.Live?
    requires forall j: nat :: j < |after| && j != i ==> SameAt(slots, after, j)
    requires forall j: nat :: Listed(left, j) <==> Listed(free, j) && j != i
    ensures forall j: nat :: j < |after| ==> FreeOk(after, left, there, j)
  {
    forall j: nat | j < |after|
      ensures FreeOk(after, left, there, j)
    {
      if j == i {
        assert there[id] == i;
      } else {
        assert SameAt(slots, after, j) && FreeOk(slots, free, home, j);
        if Inhabited(home, j) {
          var x :| x in home && home[x] == j;
          assert there[x] == j;
        }
        if Inhabited(there, j) {
          var x :| x in there && there[x] == j;
          assert home[x] == j;
        }
      }
    }
  }

  lemma CreateKeeps(slots: seq<Entry>, free: seq<nat>, s: Store, home: map<nat, nat>, i: nat, after: seq<Entry>,
      left: seq<nat>, t: nat, id: nat)
    requires Rep(slots, free, s, home) && t !in s.holds && id !in s.cells && Copies(s.holds, id) == {}
    requires i < |after| && |slots| <= |after| && !Inhabited(home, i)
    requires forall j: nat :: j < |after| && j != i ==> SameAt(slots, after, j)
    requires after[i].count == 1 && after[i].state == Live(map[])
    requires forall j: nat :: Listed(left, j) <==> Listed(free, j) && j != i
    requires forall x :: 0 <= x < |left| ==> left[x] < |after|
    requires forall x, y :: 0 <= x < y < |left| ==> left[x] != left[y]
    ensures Rep(after, left, Created(s, t, id), home[id := i])
  {
    var w, there := Created(s, t, id), home[id := i];
    assert Owned(w) by {
      forall x
        ensures x in w.cells <==> Copies(w.holds, x) != {}
      {
        AddedCopy(s.holds, t, id, x);
      }
    }
    forall x | x in there
      ensures SlotOk(after, w, there, x)
    {
      AddedCopy(s.holds, t, id, x);
      if x == id {
        assert Copies(w.holds, id) == {t};
      } else {
        assert SlotOk(slots, s, home, x) && Inhabited(home, home[x]) && SameAt(slots, after, home[x]);
      }
    }
    CreatedFree(slots, free, home, i, after, left, id, there);
    assert OneHome(there) by {
      forall a, c | SameHome(there, a, c)
        ensures a == c
      {
        assert SameHome(home, a, c) ==> a == c;
        assert a != id ==> Inhabited(home, home[a]);
        assert c != id ==> Inhabited(home, home[c]);
      }
    }
  }

  /** Changing one slot's count or state in step with its map. */
  lemma SlotKeeps(slots: seq<Entry>, free: seq<nat>, s: Store, home: map<nat, nat>, id: nat, e: Entry, w: Store)
    requires Rep(slots, free, s, home) && id in home && Represents(e, w, id) && Owned(w) && w.cells.Keys == s.cells.Keys
    requires forall x :: x in home && x != id ==> w.cells[x] == s.cells[x] && Copies(w.holds, x) == Copies(s.holds, x)
    ensures home[id] < |slots| && Rep(slots[home[id] := e], free, w, home)
  {
    assert SlotOk(slots, s, home, id);
    var after := slots[home[id] := e];
    forall x | x in home
      ensures SlotOk(after, w, home, x)
    {
      assert SlotOk(slots, s, home, x);
      if x != id {
        assert !SameHome(home, x, id);
        assert w.cells[x] == s.cells[x] && Copies(w.holds, x) == Copies(s.holds, x);
      }
    }
    forall j: nat | j < |after|
      ensures FreeOk(after, free, home, j)
    {
      assert FreeOk(slots, free, home, j);
      if j == home[id] {
        assert Inhabited(home, j);
      }
    }
  }

  lemma CopyKeeps(slots: seq<Entry>, free: seq<nat>, s: Store, home: map<nat, nat>, h: Handle, id: nat, u: nat)
    requires Rep(slots, free, s, home) && Leads(slots, home, h, id) && u !in s.holds
    ensures var e := slots[h.index];
      Rep(slots[h.index := e.(count := e.count + 1)], free, s.(holds := s.holds[u := id]), home)
  {
    var w := s.(holds := s.holds[u := id]);
    assert SlotOk(slots, s, home, id);
    forall x
      ensures x in w.cells <==> Copies(w.holds, x) != {}
      ensures x != id ==> Copies(w.holds, x) == Copies(s.holds, x)
    {
      AddedCopy(s.holds, u, id, x);
    }
    AddedCopy(s.holds, u, id, id);
    SlotKeeps(slots, free, s, home, id, slots[h.index].(count := slots[h.index].count + 1), w);
  }

  lemma ChangeKeeps(slots: seq<Entry>, free: seq<nat>, s: Store, home: map<nat, nat>, h: Handle, id: nat, c: Cell)
    requires Rep(slots, free, s, home) && Leads(slots, home, h, id)
    ensures Rep(slots[h.index := slots[h.index].(state := StateOf(c))], free, Updated(s, id, c), home)
  {
    var w := Updated(s, id, c);
    assert SlotOk(slots, s, home, id);
    assert Owned(w);
    SlotKeeps(slots, free, s, home, id, slots[h.index].(state := StateOf(c)), w);
  }

  /** Dropping one handle of several. */
  lemma ReleaseKeeps(slots: seq<Entry>, free: seq<nat>, s: Store, home: map<nat, nat>, h: Handle, t: nat)
    requires Rep(slots, free, s, home) && Names(slots, s, home, h, t) && slots[h.index].count > 1
    ensures var e := slots[h.index]; Rep(slots[h.index := e.(count := e.count - 1)], free, Dropped(s, t), home)
    ensures Dropped(s, t).cells == s.cells
  {
    var id, w := s.holds[t], Dropped(s, t);
    HomeOfHandle(slots, free, s, home, h, t);
    RemovedCopy(s.holds, t, id);
    assert |Copies(w.holds, id)| == slots[h.index].count - 1;
    assert Copies(w.holds, id) != {};
    forall x
      ensures x in w.cells <==> Copies(w.holds, x) != {}
      ensures x != id ==> Copies(w.holds, x) == Copies(s.holds, x)
    {
      RemovedCopy(s.holds, t, x);
    }
    SlotKeeps(slots, free, s, home, id, slots[h.index].(count := slots[h.index].count - 1), w);
  }

  lemma ListedSnoc(free: seq<nat>, i: nat, j: nat)
    ensures Listed(free + [i], j) <==> Listed(free, j) || i == j
  {
    if Listed(free, j) {
      var x :| 0 <= x < |free| && free[x] == j;
      assert (free + [i])[x] == j;
    }
    if i == j {
      assert (free + [i])[|free|] == j;
    }
  }

  lemma PoppedList(free: seq<nat>, left: seq<nat>, i: nat)
    requires free == left + [i] && forall x, y :: 0 <= x < y < |free| ==> free[x] != free[y]
    ensures forall j: nat :: Listed(left, j) <==> Listed(free, j) && j != i
  {
    forall j: nat
      ensures Listed(left, j) <==> Listed(free, j) && j != i
    {
      ListedSnoc(left, i, j);
      if Listed(left, j) {
        var x :| 0 <= x < |left| && left[x] == j;
        assert free[x] == j && free[|left|] == i;
      }
    }
  }

  /** Dropping the last handle: the slot is emptied and listed, and its generation moves on. */
  lemma FreeKeeps(slots: seq<Entry>, free: seq<nat>, s: Store, home: map<nat, nat>, h: Handle, t: nat, gen: nat)
    requires Rep(slots, free, s, home) && Names(slots, s, home, h, t) && slots[h.index].count == 1
    ensures Rep(slots[h.index := Entry(gen, 0, Free)], free + [h.index], Dropped(s, t), home - {s.holds[t]})
    ensures Dropped(s, t).cells == s.cells - {s.holds[t]}
  {
    var id, w := s.holds[t], Dropped(s, t);
    var after, there := slots[h.index := Entry(gen, 0, Free)], home - {id};
    HomeOfHandle(slots, free, s, home, h, t);
    RemovedCopy(s.holds, t, id);
    assert |Copies(w.holds, id)| == 0;
    forall x
      ensures x in w.cells <==> Copies(w.holds, x) != {}
      ensures x != id ==> Copies(w.holds, x) == Copies(s.holds, x)
    {
      RemovedCopy(s.holds, t, x);
    }
    forall x | x in there
      ensures SlotOk(after, w, there, x)
    {
      assert SlotOk(slots, s, home, x) && !SameHome(home, x, id);
      assert Copies(w.holds, x) == Copies(s.holds, x);
    }
    assert OneHome(there) by {
      assert forall a, c :: SameHome(there, a, c) ==> SameHome(home, a, c);
    }
    FreedListed(slots, free, home, id, h.index, after, there);
  }

  lemma FreedListed(slots: seq<Entry>, free: seq<nat>, home: map<nat, nat>, id: nat, i: nat, after: seq<Entry>,
                    there: map<nat, nat>)
    requires id in home && home[id] == i < |slots| && OneHome(home) && there == home - {id}
    requires forall j: nat :: j < |slots| ==> FreeOk(slots, free, home, j)
    requires |after| == |slots| && after[i].state.Free?
    requires forall j :: 0 <= j < |slots| && j != i ==> after[j] == slots[j]
    requires forall x, y :: 0 <= x < y < |free| ==> free[x] != free[y]
    ensures forall j: nat :: j < |after| ==> FreeOk(after, free + [i], there, j)
    ensures forall x, y :: 0 <= x < y < |free + [i]| ==> (free + [i])[x] != (free + [i])[y]
  {
    assert FreeOk(slots, free, home, i) && Inhabited(home, i);
    forall j: nat | j < |after|
      ensures FreeOk(after, free + [i], there, j)
    {
      assert FreeOk(slots, free, home, j);
      ListedSnoc(free, i, j);
      if Inhabited(there, j) {
        var x :| x in there && there[x] == j;
        assert home[x] == j && !SameHome(home, x, id);
      }
      if j != i && Inhabited(home, j) {
        var x :| x in home && home[x] == j;
        assert there[x] == j;
      }
    }
    forall x, y | 0 <= x < y < |free + [i]|
      ensures (free + [i])[x] != (free + [i])[y]
    {
      assert x < |free| ==> Listed(free, free[x]);
    }
  }

  /** Slot and generation lead to map `id`. */
  predicate Leads(slots: seq<Entry>, home: map<nat, nat>, h: Handle, id: nat) {
    id in home && home[id] == h.index && h.index < |slots| && slots[h.index].gen == h.gen
  }

  lemma LeadsIsUsed(slots: seq<Entry>, free: seq<nat>, s: Store, home: map<nat, nat>, h: Handle)
    requires Rep(slots, free, s, home)
    ensures h.index < |slots| && slots[h.index].gen == h.gen && !slots[h.index].state.Free? ==>
      exists id :: Leads(slots, home, h, id)
    ensures forall id :: Leads(slots, home, h, id) ==> !slots[h.index].state.Free? && Represents(slots[h.index], s, id)
    ensures forall a, c :: Leads(slots, home, h, a) && Leads(slots, home, h, c) ==> a == c
  {
    assert forall a, c :: Leads(slots, home, h, a) && Leads(slots, home, h, c) ==> SameHome(home, a, c);
    if h.index < |slots| && slots[h.index].gen == h.gen {
      assert FreeOk(slots, free, home, h.index);
      if !slots[h.index].state.Free? {
        var id :| id in home && home[id] == h.index;
        assert Leads(slots, home, h, id);
      }
      forall id | Leads(slots, home, h, id)
        ensures !slots[h.index].state.Free? && Represents(slots[h.index], s, id)
      {
        assert SlotOk(slots, s, home, id);
      }
    }
  }

  lemma HomesInTable(slots: seq<Entry>, free: seq<nat>, s: Store, home: map<nat, nat>)
    requires Rep(slots, free, s, home)
    ensures !Inhabited(home, |slots|)
  {
    forall id | id in home
      ensures home[id] != |slots|
    {
      assert SlotOk(slots, s, home, id);
    }
  }

  // ----- live handles go on naming their maps -----

  /** Every live token has a handle, and that handle names its map. */
  ghost predicate AllNamed(slots: seq<Entry>, s: Store, home: map<nat, nat>, handles: map<nat, Handle>) {
    && handles.Keys == s.holds.Keys
    && forall t {:trigger Names(slots, s, home, handles[t], t)} :: t in handles ==> Names(slots, s, home, handles[t], t)
  }

  lemma CreateNames(slots: seq<Entry>, s: Store, home: map<nat, nat>, handles: map<nat, Handle>, i: nat,
                    after: seq<Entry>, t: nat, id: nat)
    requires AllNamed(slots, s, home, handles) && !Inhabited(home, i) && id !in home && t !in s.holds && i < |after|
    requires |slots| <= |after| && forall j: nat :: j < |after| && j != i ==> SameAt(slots, after, j)
    ensures AllNamed(after, Created(s, t, id), home[id := i], handles[t := Handle(i, after[i].gen)])
  {
    var w, there, more := Created(s, t, id), home[id := i], handles[t := Handle(i, after[i].gen)];
    forall u | u in more
      ensures Names(after, w, there, more[u], u)
    {
      if u != t {
        assert Names(slots, s, home, handles[u], u) && Inhabited(home, home[s.holds[u]]);
        assert SameAt(slots, after, handles[u].index);
      }
    }
  }

  /** Changing counts and states, not generations. */
  lemma SlotNames(slots: seq<Entry>, s: Store, home: map<nat, nat>, handles: map<nat, Handle>, i: nat, e: Entry,
      w: Store)
    requires AllNamed(slots, s, home, handles) && i < |slots| && e.gen == slots[i].gen && w.holds == s.holds
    ensures AllNamed(slots[i := e], w, home, handles)
  {
    forall u | u in handles
      ensures Names(slots[i := e], w, home, handles[u], u)
    {
      assert Names(slots, s, home, handles[u], u);
    }
  }

  lemma CopyNames(slots: seq<Entry>, s: Store, home: map<nat, nat>, handles: map<nat, Handle>, h: Handle, id: nat,
      u: nat)
    requires AllNamed(slots, s, home, handles) && Leads(slots, home, h, id) && u !in s.holds
    ensures AllNamed(slots[h.index := slots[h.index].(count := slots[h.index].count + 1)],
                     s.(holds := s.holds[u := id]), home, handles[u := h])
  {
    var after, w := slots[h.index := slots[h.index].(count := slots[h.index].count + 1)], s.(holds := s.holds[u := id]);
    var more := handles[u := h];
    forall v | v in more
      ensures Names(after, w, home, more[v], v)
    {
      if v != u {
        assert Names(slots, s, home, handles[v], v);
      }
    }
  }

  lemma ReleaseNames(slots: seq<Entry>, s: Store, home: map<nat, nat>, handles: map<nat, Handle>, t: nat, i: nat,
      e: Entry)
    requires AllNamed(slots, s, home, handles) && t in handles && i < |slots| && e.gen == slots[i].gen
    ensures AllNamed(slots[i := e], Dropped(s, t), home, handles - {t})
  {
    var left := handles - {t};
    forall u | u in left
      ensures Names(slots[i := e], Dropped(s, t), home, left[u], u)
    {
      assert Names(slots, s, home, handles[u], u);
    }
  }

  lemma FreeNames(slots: seq<Entry>, free: seq<nat>, s: Store, home: map<nat, nat>, handles: map<nat, Handle>, t: nat,
      e: Entry)
    requires Rep(slots, free, s, home) && AllNamed(slots, s, home, handles) && t in handles
    requires Names(slots, s, home, handles[t], t) && slots[handles[t].index].count == 1
    ensures AllNamed(slots[handles[t].index := e], Dropped(s, t), home - {s.holds[t]}, handles - {t})
  {
    var i, left, there := handles[t].index, handles - {t}, home - {s.holds[t]};
    HomeOfHandle(slots, free, s, home, handles[t], t);
    forall u | u in left
      ensures Names(slots[i := e], Dropped(s, t), there, left[u], u)
    {
      assert Names(slots, s, home, handles[u], u);
      OnlyHandle(s, t, u);
      assert !SameHome(home, s.holds[u], s.holds[t]);
    }
  }

  /** A map with one handle is nobody else's. */
  lemma OnlyHandle(s: Store, t: nat, u: nat)
    requires t in s.holds && u in s.holds && u != t && |Copies(s.holds, s.holds[t])| == 1
    ensures s.holds[u] != s.holds[t]
  {
    if s.holds[u] == s.holds[t] {
      SingleCopy(Copies(s.holds, s.holds[t]), t, u);
    }
  }

  lemma SingleCopy(c: set<nat>, t: nat, u: nat)
    requires t in c && u in c && |c| == 1
    ensures t == u
  {
    assert |c - {t}| == 0;
  }

  // ----- which map a handle leads to -----

  ghost function Target(slots: seq<Entry>, home: map<nat, nat>, h: Handle): (id: Option<nat>)
    ensures id.Some? <==> exists x :: Leads(slots, home, h, x)
    ensures id.Some? ==> Leads(slots, home, h, id.value)
  {
    if x :| Leads(slots, home, h, x) then Some(x) else None
  }

  function CellOf(s: Store, id: Option<nat>): Option<Cell> {
    if id.Some? && id.value in s.cells then Some(s.cells[id.value]) else None
  }

  /** A live handle leads to its own map. */
  lemma TargetOfHandle(slots: seq<Entry>, free: seq<nat>, s: Store, home: map<nat, nat>, handles: map<nat, Handle>,
      t: nat)
    requires Rep(slots, free, s, home) && AllNamed(slots, s, home, handles) && t in handles
    ensures Target(slots, home, handles[t]) == Some(s.holds[t]) && s.holds[t] in s.cells
  {
    assert Names(slots, s, home, handles[t], t);
    assert Leads(slots, home, handles[t], s.holds[t]);
    assert SameHome(home, Target(slots, home, handles[t]).value, s.holds[t]);
  }

  /** What the table finds in the slot a handle points at. */
  lemma TargetIsSlot(slots: seq<Entry>, free: seq<nat>, s: Store, home: map<nat, nat>, h: Handle)
    requires Rep(slots, free, s, home)
    ensures var found := h.index < |slots| && slots[h.index].gen == h.gen && !slots[h.index].state.Free?;
      && (found <==> Target(slots, home, h).Some?)
      && (found ==> CellOf(s, Target(slots, home, h)).Some? &&
                    slots[h.index].state == StateOf(CellOf(s, Target(slots, home, h)).value))
  {
    LeadsIsUsed(slots, free, s, home, h);
  }

  // ----- the table and what it stands for, as one value -----

  /** `nextToken` and `nextId` are the names not used up yet. */
  datatype Image = Image(
    slots: seq<Entry>, free: seq<nat>, store: Store, home: map<nat, nat>, handles: map<nat, Handle>,
    nextToken: nat, nextId: nat)

  ghost predicate Faithful(x: Image) {
    && Rep(x.slots, x.free, x.store, x.home)
    && AllNamed(x.slots, x.store, x.home, x.handles)
    && (forall t :: t in x.store.holds ==> t < x.nextToken)
    && (forall id :: id in x.store.cells ==> id < x.nextId)
  }

  const EMPTY := Image([], [], Store(map[], map[]), map[], map[], 0, 0)

  type Good = x: Image | Faithful(x) witness Image([], [], Store(map[], map[]), map[], map[], 0, 0)

  /** The map handle `h` leads to, if it leads to one. */
  ghost function MapOf(x: Image, h: Handle): Option<nat> {
    Target(x.slots, x.home, h)
  }

  lemma HandleLeadsHome(x: Good, t: nat)
    requires t in x.handles
    ensures t in x.store.holds && x.store.holds[t] in x.store.cells && MapOf(x, x.handles[t]) == Some(x.store.holds[t])
  {
    TargetOfHandle(x.slots, x.free, x.store, x.home, x.handles, t);
  }

  /** Slot `i` was free or is new, and has an empty map with one handle. */
  ghost predicate SlotTaken(slots: seq<Entry>, free: seq<nat>, home: map<nat, nat>, i: nat, after: seq<Entry>,
      left: seq<nat>) {
    && i < |after| && |slots| <= |after| && !Inhabited(home, i)
    && (forall j: nat :: j < |after| && j != i ==> SameAt(slots, after, j))
    && after[i].count == 1 && after[i].state == Live(map[])
    && (forall j: nat :: Listed(left, j) <==> Listed(free, j) && j != i)
    && (forall x :: 0 <= x < |left| ==> left[x] < |after|)
    && (forall x, y :: 0 <= x < y < |left| ==> left[x] != left[y])
  }

  lemma NewImage(x: Good, i: nat, after: seq<Entry>, left: seq<nat>) returns (y: Good)
    requires SlotTaken(x.slots, x.free, x.home, i, after, left)
    ensures y == Image(after, left, Created(x.store, x.nextToken, x.nextId), x.home[x.nextId := i],
                       x.handles[x.nextToken := Handle(i, after[i].gen)], x.nextToken + 1, x.nextId + 1)
  {
    assert Copies(x.store.holds, x.nextId) == {};
    CreateKeeps(x.slots, x.free, x.store, x.home, i, after, left, x.nextToken, x.nextId);
    CreateNames(x.slots, x.store, x.home, x.handles, i, after, x.nextToken, x.nextId);
    y := Image(after, left, Created(x.store, x.nextToken, x.nextId), x.home[x.nextId := i],
               x.handles[x.nextToken := Handle(i, after[i].gen)], x.nextToken + 1, x.nextId + 1);
  }

  function Counted(slots: seq<Entry>, i: nat): seq<Entry>
    requires i < |slots|
  {
    slots[i := slots[i].(count := slots[i].count + 1)]
  }

  lemma CopyImage(x: Good, h: Handle) returns (y: Good)
    requires MapOf(x, h).Some?
    ensures h.index < |x.slots|
    ensures y == x.(slots := Counted(x.slots, h.index), nextToken := x.nextToken + 1,
                    store := x.store.(holds := x.store.holds[x.nextToken := MapOf(x, h).value]),
                    handles := x.handles[x.nextToken := h])
  {
    var id := MapOf(x, h).value;
    CopyKeeps(x.slots, x.free, x.store, x.home, h, id, x.nextToken);
    CopyNames(x.slots, x.store, x.home, x.handles, h, id, x.nextToken);
    y := x.(slots := Counted(x.slots, h.index), nextToken := x.nextToken + 1,
            store := x.store.(holds := x.store.holds[x.nextToken := id]), handles := x.handles[x.nextToken := h]);
  }

  /** One handle less on slot `i`; the last one empties it, moves its generation on and lists it. */
  function Uncounted(slots: seq<Entry>, free: seq<nat>, i: nat): (seq<Entry>, seq<nat>)
    requires i < |slots| && slots[i].count >= 1
  {
    var e := slots[i];
    if e.count == 1 then (slots[i := Entry((e.gen + 1) % GENERATIONS, 0, Free)], free + [i])
    else (slots[i := e.(count := e.count - 1)], free)
  }

  lemma HandleIsCounted(x: Good, t: nat)
    requires t in x.handles
    ensures x.handles[t].index < |x.slots| && x.slots[x.handles[t].index].count >= 1
  {
    assert Names(x.slots, x.store, x.home, x.handles[t], t);
    HomeOfHandle(x.slots, x.free, x.store, x.home, x.handles[t], t);
    var copies := Copies(x.store.holds, x.store.holds[t]);
    assert t in copies && copies != {};
  }

  lemma DropImage(x: Good, t: nat) returns (y: Good)
    requires t in x.handles
    ensures x.handles[t].index < |x.slots| && x.slots[x.handles[t].index].count >= 1
    ensures (y.slots, y.free) == Uncounted(x.slots, x.free, x.handles[t].index)
    ensures t in x.store.holds && y.store == Dropped(x.store, t) && y.handles == x.handles - {t}
    ensures y.nextToken == x.nextToken && y.nextId == x.nextId
  {
    HandleIsCounted(x, t);
    var i := x.handles[t].index;
    if x.slots[i].count == 1 {
      y := LastDropImage(x, t, i);
    } else {
      y := ReleaseImage(x, t, i);
    }
  }

  lemma LastDropImage(x: Good, t: nat, i: nat) returns (y: Good)
    requires t in x.handles && x.handles[t].index == i < |x.slots| && x.slots[i].count == 1
    ensures (y.slots, y.free) == Uncounted(x.slots, x.free, i)
    ensures t in x.store.holds && y.store == Dropped(x.store, t) && y.handles == x.handles - {t}
    ensures y.nextToken == x.nextToken && y.nextId == x.nextId
  {
    var freed := Entry((x.slots[i].gen + 1) % GENERATIONS, 0, Free);
    assert Names(x.slots, x.store, x.home, x.handles[t], t);
    FreeKeeps(x.slots, x.free, x.store, x.home, x.handles[t], t, freed.gen);
    FreeNames(x.slots, x.free, x.store, x.home, x.handles, t, freed);
    y := Image(x.slots[i := freed], x.free + [i], Dropped(x.store, t), x.home - {x.store.holds[t]}, x.handles - {t},
               x.nextToken, x.nextId);
  }

  lemma ReleaseImage(x: Good, t: nat, i: nat) returns (y: Good)
    requires t in x.handles && x.handles[t].index == i < |x.slots| && x.slots[i].count > 1
    ensures (y.slots, y.free) == Uncounted(x.slots, x.free, i)
    ensures t in x.store.holds && y.store == Dropped(x.store, t) && y.handles == x.handles - {t}
    ensures y.nextToken == x.nextToken && y.nextId == x.nextId
  {
    var e := x.slots[i].(count := x.slots[i].count - 1);
    assert Names(x.slots, x.store, x.home, x.handles[t], t);
    ReleaseKeeps(x.slots, x.free, x.store, x.home, x.handles[t], t);
    ReleaseNames(x.slots, x.store, x.home, x.handles, t, i, e);
    y := x.(slots := x.slots[i := e], store := Dropped(x.store, t), handles := x.handles - {t});
  }

  lemma ChangeImage(x: Good, h: Handle, c: Cell) returns (y: Good)
    requires MapOf(x, h).Some?
    ensures h.index < |x.slots|
    ensures y == x.(slots := x.slots[h.index := x.slots[h.index].(state := StateOf(c))],
                    store := Updated(x.store, MapOf(x, h).value, c))
  {
    var id, e := MapOf(x, h).value, x.slots[h.index].(state := StateOf(c));
    ChangeKeeps(x.slots, x.free, x.store, x.home, h, id, c);
    SlotNames(x.slots, x.store, x.home, x.handles, h.index, e, Updated(x.store, id, c));
    y := x.(slots := x.slots[h.index := e], store := Updated(x.store, id, c));
  }

  lemma FoundInSlot(x: Good, h: Handle)
    ensures var found := h.index < |x.slots| && x.slots[h.index].gen == h.gen && !x.slots[h.index].state.Free?;
      && (found <==> MapOf(x, h).Some?)
      && (found ==> CellOf(x.store, MapOf(x, h)).Some? &&
                    x.slots[h.index].state == StateOf(CellOf(x.store, MapOf(x, h)).value))
  {
    TargetIsSlot(x.slots, x.free, x.store, x.home, h);
  }

  lemma TakesFree(x: Good, left: seq<nat>, i: nat)
    requires x.free == left + [i]
    ensures i < |x.slots|
    ensures SlotTaken(x.slots, x.free, x.home, i, x.slots[i := Entry(x.slots[i].gen, 1, Live(map[]))], left)
  {
    assert x.free[|left|] == i && Listed(x.free, i);
    assert FreeOk(x.slots, x.free, x.home, i);
    PoppedList(x.free, left, i);
    assert forall y :: 0 <= y < |left| ==> left[y] == x.free[y];
  }

  lemma TakesNew(x: Good)
    requires x.free == []
    ensures SlotTaken(x.slots, x.free, x.home, |x.slots|, x.slots + [Entry(0, 1, Live(map[]))], [])
  {
    HomesInTable(x.slots, x.free, x.store, x.home);
    var after := x.slots + [Entry(0, 1, Live(map[]))];
    assert forall j: nat :: j < |x.slots| ==> SameAt(x.slots, after, j);
    assert forall j: nat :: !Listed([], j);
  }

  class Table {
    var slots: seq<Entry>
    var free: seq<nat>
    ghost var im: Good

    ghost predicate Valid()
      reads this
    {
      slots == im.slots && free == im.free
    }

    constructor ()
      ensures Valid() && im == EMPTY
    {
      slots, free, im := [], [], EMPTY;
    }

    /** A map of its own, never seen before, with one handle. */
    method New() returns (h: Handle)
      requires Valid()
      modifies this
      ensures Valid() && im.store == Created(old(im).store, old(im).nextToken, old(im).nextId)
      ensures im.handles == old(im).handles[old(im).nextToken := h]
      ensures im.nextToken == old(im).nextToken + 1 && im.nextId == old(im).nextId + 1
    {
      var i;
      if |free| > 0 {
        i := free[|free| - 1];
        var left := free[..|free| - 1];
        TakesFree(im, left, i);
        slots, free := slots[i := Entry(slots[i].gen, 1, Live(map[]))], left;
      } else {
        i := |slots|;
        TakesNew(im);
        slots := slots + [Entry(0, 1, Live(map[]))];
      }
      h := Handle(i, slots[i].gen);
      im := NewImage(im, i, slots, free);
    }

    /** Another handle to the same map, counted when there is a map. */
    method Clone(h: Handle) returns (c: Handle, counted: bool)
      requires Valid()
      modifies this
      ensures Valid() && c == h && counted == MapOf(old(im), h).Some?
      ensures !counted ==> im == old(im)
      ensures counted ==>
        && im.store == old(im).store.(holds := old(im).store.holds[old(im).nextToken := MapOf(old(im), h).value])
        && im.handles == old(im).handles[old(im).nextToken := c]
        && im.nextToken == old(im).nextToken + 1 && im.nextId == old(im).nextId
    {
      c := h;
      FoundInSlot(im, h);
      counted := h.index < |slots| && slots[h.index].gen == h.gen && !slots[h.index].state.Free?;
      if counted {
        slots := slots[h.index := slots[h.index].(count := slots[h.index].count + 1)];
        im := CopyImage(im, h);
      }
    }

    /** The handle goes; the map goes with its last handle, and only then. */
    method Drop(h: Handle, ghost t: nat)
      requires Valid() && t in im.handles && im.handles[t] == h
      modifies this
      ensures Valid() && t in old(im).store.holds && im.store == Dropped(old(im).store, t)
      ensures im.handles == old(im).handles - {t}
      ensures im.nextToken == old(im).nextToken && im.nextId == old(im).nextId
    {
      HandleIsCounted(im, t);
      var e := slots[h.index];
      if e.count == 1 {
        slots := slots[h.index := Entry((e.gen + 1) % GENERATIONS, 0, Free)];
        free := free + [h.index];
      } else {
        slots := slots[h.index := e.(count := e.count - 1)];
      }
      im := DropImage(im, t);
    }

    /** In place, in the map the handle leads to and in no other; a dead or foreign handle is refused. */
    method Put(h: Handle, k: string, v: string) returns (r: Option<bool>)
      requires Valid()
      modifies this
      ensures Valid() && im.handles == old(im).handles
      ensures im.nextToken == old(im).nextToken && im.nextId == old(im).nextId
      ensures match CellOf(old(im).store, MapOf(old(im), h))
        case Some(Open(m)) => r == Some(k !in m) &&
          im.store == Updated(old(im).store, MapOf(old(im), h).value, Open(m[k := v]))
        case _ => r == None && im.store == old(im).store
    {
      FoundInSlot(im, h);
      r := None;
      if h.index < |slots| && slots[h.index].gen == h.gen && slots[h.index].state.Live? {
        var m := slots[h.index].state.m;
        r := Some(k !in m);
        slots := slots[h.index := slots[h.index].(state := Live(m[k := v]))];
        im := ChangeImage(im, h, Open(m[k := v]));
      }
    }

    /** What the handle's map has under the key. */
    method Get(h: Handle, k: string) returns (r: Option<Option<string>>)
      requires Valid()
      ensures match CellOf(im.store, MapOf(im, h))
        case Some(Open(m)) => r == Some(if k in m then Some(m[k]) else None)
        case _ => r == None
    {
      FoundInSlot(im, h);
      if h.index < |slots| && slots[h.index].gen == h.gen && slots[h.index].state.Live? {
        var m := slots[h.index].state.m;
        return Some(if k in m then Some(m[k]) else None);
      }
      r := None;
    }

    /** The map moves out whole, and its handles are dead from then on. */
    method Freeze(h: Handle) returns (r: Option<Map>)
      requires Valid()
      modifies this
      ensures Valid() && im.handles == old(im).handles
      ensures im.nextToken == old(im).nextToken && im.nextId == old(im).nextId
      ensures match CellOf(old(im).store, MapOf(old(im), h))
        case Some(Open(m)) => r == Some(m) && im.store == Updated(old(im).store, MapOf(old(im), h).value, Frozen)
        case _ => r == None && im.store == old(im).store
    {
      FoundInSlot(im, h);
      r := None;
      if h.index < |slots| && slots[h.index].gen == h.gen && slots[h.index].state.Live? {
        r := Some(slots[h.index].state.m);
        slots := slots[h.index := slots[h.index].(state := Dead)];
        im := ChangeImage(im, h, Frozen);
      }
    }
  }
}
