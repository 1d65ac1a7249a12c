/** The filter: claim passes that keep the lowest ordinal per fingerprint, then the pass that keeps one of each. */
module GpuFilter {
  import opened Ring
  import opened GpuPass
  import opened GpuRuns
  import opened GpuMemo

  /** One claim pass over all candidates of the size. */
  function ClaimPass(h: Hashing, slots: seq<Slot>, candidates: seq<Element>): Pass
    requires |slots| >= 1
  {
    Setup(Filter, h, slots, [], candidates)
  }

  /** The claim passes from table `slots`: rerun while an element met a slot being written. */
  ghost predicate Claimings(h: Hashing, slots: seq<Slot>, candidates: seq<Element>, passes: seq<seq<nat>>,
      out: seq<Slot>)
    decreases |passes|
  {
    |slots| >= 1 && passes != [] && Complete(ClaimPass(h, slots, candidates), passes[0]) &&
    var s := EndOf(ClaimPass(h, slots, candidates), passes[0]);
    if Flagged(s, Retry) then Claimings(h, s.slots, candidates, passes[1..], out)
    else |passes| == 1 && out == s.slots
  }

  predicate Stands(slot: Slot, candidates: seq<Element>, t: nat) {
    t < |candidates| && slot == Published(candidates[t].key, candidates[t].put)
  }

  /** Every slot holds the key and the ordinal of some candidate: all that aborted passes can leave behind. */
  ghost predicate FilterOk(h: Hashing, slots: seq<Slot>, candidates: seq<Element>) {
    GoodTable(h, slots) &&
    forall i: nat :: i < |slots| && slots[i].Published? ==> IsStanding(slots[i], candidates)
  }

  lemma PassKeepsFilter(h: Hashing, slots: seq<Slot>, candidates: seq<Element>, schedule: seq<nat>)
    requires FilterOk(h, slots, candidates) && Complete(ClaimPass(h, slots, candidates), schedule)
    ensures var p := ClaimPass(h, slots, candidates); var s := EndOf(p, schedule);
      Inv(p, s) && |s.slots| == |slots| && FilterOk(h, s.slots, candidates)
  {
    var p := ClaimPass(h, slots, candidates);
    var s := EndOf(p, schedule);
    PassStarts(p);
    RunKeeps(p, Start(p), schedule);
    PassLeaves(p, s);
    forall i: nat | i < |s.slots| && s.slots[i].Published?
      ensures IsStanding(s.slots[i], candidates)
    {
      assert SourceOk(p, s, i);
      if t: nat :| t < |p.elements| && SlotAt(s, i) == Fresh(p, p.elements[t]) {
        assert Stands(s.slots[i], candidates, t);
      } else {
        assert slots[i] == s.slots[i] && IsStanding(slots[i], candidates);
      }
    }
  }

  function KeySet(candidates: seq<Element>): (ks: set<Key>)
    ensures |ks| <= |candidates|
    ensures forall t :: 0 <= t < |candidates| ==> candidates[t].key in ks
  {
    if candidates == [] then {} else
    var last := |candidates| - 1;
    assert forall t :: 0 <= t < last ==> candidates[..last][t] == candidates[t];
    KeySet(candidates[..last]) + {candidates[last].key}
  }

  /** With a slot for every candidate no pass finds the table full. */
  lemma NeverFull(h: Hashing, slots: seq<Slot>, candidates: seq<Element>, schedule: seq<nat>)
    requires FilterOk(h, slots, candidates) && |slots| >= |candidates| &&
      Complete(ClaimPass(h, slots, candidates), schedule)
    ensures !Flagged(EndOf(ClaimPass(h, slots, candidates), schedule), Full)
  {
    var p := ClaimPass(h, slots, candidates);
    var s := EndOf(p, schedule);
    PassKeepsFilter(h, slots, candidates, schedule);
    if Flagged(s, Full) {
      forall i: nat | SlotAt(s, i).Published?
        ensures SlotAt(s, i).key in KeySet(candidates)
      {
        assert IsStanding(s.slots[i], candidates);
        var t: nat :| Stands(s.slots[i], candidates, t);
      }
      FullMeansMany(p, s, KeySet(candidates));
    }
  }

  /** Slot `i` holds the candidate's fingerprint under an ordinal no higher than its own. */
  predicate Lowered(slots: seq<Slot>, e: Element, i: nat) {
    i < |slots| && slots[i].Published? && slots[i].key == e.key && slots[i].load <= e.put
  }

  lemma CleanPassLowers(h: Hashing, slots: seq<Slot>, candidates: seq<Element>, schedule: seq<nat>, t: nat)
      returns (i: nat)
    requires FilterOk(h, slots, candidates) && |slots| >= |candidates| &&
      Complete(ClaimPass(h, slots, candidates), schedule)
    requires !Flagged(EndOf(ClaimPass(h, slots, candidates), schedule), Retry) && t < |candidates|
    ensures Lowered(EndOf(ClaimPass(h, slots, candidates), schedule).slots, candidates[t], i)
  {
    var p := ClaimPass(h, slots, candidates);
    var s := EndOf(p, schedule);
    PassKeepsFilter(h, slots, candidates, schedule);
    NeverFull(h, slots, candidates, schedule);
    assert PcOk(p, s, t) && s.pcs[t].Done?;
    assert s.pcs[t] == Done(Retry) ==> Flagged(s, Retry);
    assert s.pcs[t] == Done(Full) ==> Flagged(s, Full);
    i :| HoldsAt(p, s, candidates[t], i);
  }

  ghost predicate IsLowered(slots: seq<Slot>, e: Element) {
    exists i: nat :: Lowered(slots, e, i)
  }

  ghost predicate AllLowered(slots: seq<Slot>, candidates: seq<Element>) {
    forall t :: 0 <= t < |candidates| ==> IsLowered(slots, candidates[t])
  }

  ghost predicate IsStanding(slot: Slot, candidates: seq<Element>) {
    exists t: nat :: Stands(slot, candidates, t)
  }

  /**
   * When the claim passes end, whatever the aborted ones left, every candidate's ordinal has been taken into account.
   */
  lemma {:induction false} ClaimingsLower(h: Hashing, slots: seq<Slot>, candidates: seq<Element>,
      passes: seq<seq<nat>>, out: seq<Slot>)
    requires FilterOk(h, slots, candidates) && |slots| >= |candidates| && Claimings(h, slots, candidates, passes, out)
    ensures FilterOk(h, out, candidates) && AllLowered(out, candidates)
    decreases |passes|
  {
    var s := EndOf(ClaimPass(h, slots, candidates), passes[0]);
    PassKeepsFilter(h, slots, candidates, passes[0]);
    if Flagged(s, Retry) {
      ClaimingsLower(h, s.slots, candidates, passes[1..], out);
    } else {
      forall t | 0 <= t < |candidates|
        ensures IsLowered(out, candidates[t])
      {
        var i := CleanPassLowers(h, slots, candidates, passes[0], t);
      }
    }
  }

  /** The claim passes so far, every one of them to be rerun, have come from table `slots` to table `now`. */
  ghost predicate Reclaiming(h: Hashing, slots: seq<Slot>, candidates: seq<Element>, passes: seq<seq<nat>>,
      now: seq<Slot>)
    decreases |passes|
  {
    if passes == [] then now == slots else
    |slots| >= 1 && Complete(ClaimPass(h, slots, candidates), passes[0]) &&
    var s := EndOf(ClaimPass(h, slots, candidates), passes[0]);
    Flagged(s, Retry) && Reclaiming(h, s.slots, candidates, passes[1..], now)
  }

  /** Reruns end: each has taken another slot, so no more can have been made than there were free slots. */
  lemma {:induction false} ClaimingsEnd(
    h: Hashing, slots: seq<Slot>, candidates: seq<Element>, passes: seq<seq<nat>>, now: seq<Slot>)
    requires FilterOk(h, slots, candidates) && Reclaiming(h, slots, candidates, passes, now)
    ensures FilterOk(h, now, candidates) && |now| == |slots|
    ensures |passes| + TakenCount(slots) <= TakenCount(now) <= |slots|
    decreases |passes|
  {
    if passes != [] {
      var p := ClaimPass(h, slots, candidates);
      var s := EndOf(p, passes[0]);
      PassKeepsFilter(h, slots, candidates, passes[0]);
      RerunClaims(p, s);
      ClaimingsEnd(h, s.slots, candidates, passes[1..], now);
    }
  }

  /** From wherever the reruns stand, the next pass can be run to its end, and then is the last or another rerun. */
  lemma ClaimingsGoOn(h: Hashing, slots: seq<Slot>, candidates: seq<Element>, passes: seq<seq<nat>>, now: seq<Slot>)
    returns (pass: seq<nat>)
    requires FilterOk(h, slots, candidates) && Reclaiming(h, slots, candidates, passes, now)
    ensures |now| >= 1 && Complete(ClaimPass(h, now, candidates), pass)
    ensures var s := EndOf(ClaimPass(h, now, candidates), pass);
      if Flagged(s, Retry) then Reclaiming(h, slots, candidates, passes + [pass], s.slots)
      else Claimings(h, slots, candidates, passes + [pass], s.slots)
    decreases |passes|
  {
    if passes == [] {
      var p := ClaimPass(h, slots, candidates);
      PassStarts(p);
      pass := PassCompletes(p, Start(p));
      assert passes + [pass] == [pass] && [pass][1..] == [];
    } else {
      var s := EndOf(ClaimPass(h, slots, candidates), passes[0]);
      PassKeepsFilter(h, slots, candidates, passes[0]);
      pass := ClaimingsGoOn(h, s.slots, candidates, passes[1..], now);
      assert (passes + [pass])[1..] == passes[1..] + [pass];
    }
  }

  /** A finished run of claim passes is reruns and then one clean pass. */
  lemma {:induction false} ClaimingsFinish(
    h: Hashing, slots: seq<Slot>, candidates: seq<Element>, passes: seq<seq<nat>>, out: seq<Slot>)
    returns (now: seq<Slot>)
    requires Claimings(h, slots, candidates, passes, out)
    ensures Reclaiming(h, slots, candidates, passes[..|passes| - 1], now)
    decreases |passes|
  {
    var s := EndOf(ClaimPass(h, slots, candidates), passes[0]);
    if Flagged(s, Retry) {
      now := ClaimingsFinish(h, s.slots, candidates, passes[1..], out);
      assert passes[..|passes| - 1][1..] == passes[1..][..|passes| - 2];
    } else {
      now := slots;
    }
  }

  // ----- the lowest ordinal -----

  /** No candidate with the same fingerprint has a lower ordinal. */
  ghost predicate First(candidates: seq<Element>, t: nat)
    requires t < |candidates|
  {
    forall u :: 0 <= u < |candidates| && candidates[u].key == candidates[t].key ==>
      candidates[t].put <= candidates[u].put
  }

  /** The slot of a fingerprint holds the minimum ordinal over all its candidates. */
  lemma SlotHoldsMinimum(h: Hashing, slots: seq<Slot>, candidates: seq<Element>, i: nat, t: nat)
    requires FilterOk(h, slots, candidates) && AllLowered(slots, candidates)
    requires i < |slots| && slots[i].Published? && t < |candidates| && slots[i].key == candidates[t].key
    ensures slots[i].load <= candidates[t].put
    ensures slots[i].load == candidates[t].put <==> First(candidates, t)
  {
    forall u | 0 <= u < |candidates| && candidates[u].key == candidates[t].key
      ensures slots[i].load <= candidates[u].put
    {
      assert IsLowered(slots, candidates[u]);
      var j: nat :| Lowered(slots, candidates[u], j);
      OneSlot(h, Engine(slots, [], []), i, j);
    }
    assert IsStanding(slots[i], candidates);
    var v: nat :| Stands(slots[i], candidates, v);
  }

  /**
   * `p5_keep`, its survivors put in order as the host does: exactly the candidates that are first with their
   * fingerprint.
   */
  method Keep(h: Hashing, slots: seq<Slot>, candidates: seq<Element>) returns (kept: seq<nat>)
    requires FilterOk(h, slots, candidates) && AllLowered(slots, candidates)
    ensures forall x, y :: 0 <= x < y < |kept| ==> kept[x] < kept[y]
    ensures forall c: nat :: c in kept <==> c < |candidates| && First(candidates, c)
  {
    kept := [];
    for c := 0 to |candidates|
      invariant forall x, y :: 0 <= x < y < |kept| ==> kept[x] < kept[y]
      invariant forall x :: 0 <= x < |kept| ==> kept[x] < c
      invariant forall t: nat :: t in kept <==> t < c && First(candidates, t)
    {
      var r := FindSlot(h, slots, candidates[c].key);
      assert IsLowered(slots, candidates[c]);
      SlotHoldsMinimum(h, slots, candidates, r, c);
      if r >= 0 && slots[r].load == candidates[c].put {
        kept := kept + [c];
      }
    }
  }

  ghost predicate DistinctOrdinals(candidates: seq<Element>) {
    forall t, u :: 0 <= t < u < |candidates| ==> candidates[t].put != candidates[u].put
  }

  /** The candidate of lowest ordinal with the fingerprint of `t`, among the first `n`. */
  function Lowest(candidates: seq<Element>, t: nat, n: nat): (u: nat)
    requires t < n <= |candidates|
    ensures u < n && candidates[u].key == candidates[t].key
    ensures forall v :: 0 <= v < n && candidates[v].key == candidates[t].key ==> candidates[u].put <= candidates[v].put
    decreases n
  {
    if n == t + 1 then LowestBefore(candidates, t, t)
    else
      var u := Lowest(candidates, t, n - 1);
      if candidates[n - 1].key == candidates[t].key && candidates[n - 1].put < candidates[u].put then n - 1 else u
  }

  function LowestBefore(candidates: seq<Element>, t: nat, n: nat): (u: nat)
    requires n <= t < |candidates|
    ensures u <= t && candidates[u].key == candidates[t].key && candidates[u].put <= candidates[t].put
    ensures forall v :: 0 <= v < n && candidates[v].key == candidates[t].key ==> candidates[u].put <= candidates[v].put
    decreases n
  {
    if n == 0 then t
    else
      var u := LowestBefore(candidates, t, n - 1);
      if candidates[n - 1].key == candidates[t].key && candidates[n - 1].put < candidates[u].put then n - 1 else u
  }

  /** With distinct ordinals every fingerprint has exactly one survivor. */
  lemma OneSurvivor(candidates: seq<Element>, t: nat) returns (u: nat)
    requires DistinctOrdinals(candidates) && t < |candidates|
    ensures u < |candidates| && candidates[u].key == candidates[t].key && First(candidates, u)
    ensures forall v :: 0 <= v < |candidates| && candidates[v].key == candidates[t].key && First(candidates, v) ==>
      v == u
  {
    u := Lowest(candidates, t, |candidates|);
  }

  /**
   * The whole filter, from an empty table with two slots per candidate: reruns in any interleaving, then the keep pass.
   */
  method FilterSize(h: Hashing, candidates: seq<Element>, cap: nat, ghost passes: seq<seq<nat>>, out: seq<Slot>)
    returns (kept: seq<nat>)
    requires cap >= 1 && cap >= 2 * |candidates| && Claimings(h, Blank(cap), candidates, passes, out)
    ensures forall x, y :: 0 <= x < y < |kept| ==> kept[x] < kept[y]
    ensures forall c: nat :: c in kept <==> c < |candidates| && First(candidates, c)
    ensures |passes| <= cap + 1
  {
    BlankIsGood(h, cap);
    ClaimingsLower(h, Blank(cap), candidates, passes, out);
    ghost var now := ClaimingsFinish(h, Blank(cap), candidates, passes, out);
    ClaimingsEnd(h, Blank(cap), candidates, passes[..|passes| - 1], now);
    kept := Keep(h, out, candidates);
  }

  // ----- who is a candidate -----

  const NONE: nat := 0xFFFF_FFFE
  const REFUSED: nat := 0xFFFF_FFFD

  /** What a produced vector is held against: the all-E value, the rows to give at the last size, the keys of B. */
  datatype Filt = Filt(eid: nat, last: bool, mask: seq<nat>)

  predicate GivesRows(f: Filt, v: seq<nat>) {
    |f.mask| == |v| && forall i :: 0 <= i < |v| ==> f.mask[i] == NONE || f.mask[i] == v[i]
  }

  predicate AllE(f: Filt, v: seq<nat>) {
    forall i :: 0 <= i < |v| ==> v[i] == f.eid
  }

  predicate InB(bseen: seq<Slot>, key: Key) {
    exists i :: 0 <= i < |bseen| && bseen[i].Published? && bseen[i].key == key
  }

  /** A candidate is not all E, gives the rows when that is asked, and is not in B; a refused value is reported. */
  method ClaimTest(h: Hashing, f: Filt, v: seq<nat>, bseen: seq<Slot>, roleKey: Key) returns (keep: bool, refused: bool)
    requires |f.mask| == |v| && GoodTable(h, bseen)
    ensures keep <==> !AllE(f, v) && (f.last ==> GivesRows(f, v)) && !InB(bseen, roleKey)
    ensures refused <==> REFUSED in v
  {
    var alle, fits := true, true;
    refused := false;
    for i := 0 to |v|
      invariant refused <==> REFUSED in v[..i]
      invariant alle <==> forall j :: 0 <= j < i ==> v[j] == f.eid
      invariant fits <==> forall j :: 0 <= j < i ==> f.mask[j] == NONE || f.mask[j] == v[j]
    {
      assert v[..i + 1] == v[..i] + [v[i]];
      if v[i] == REFUSED {
        refused := true;
      }
      if v[i] != f.eid {
        alle := false;
      }
      if f.mask[i] != NONE && f.mask[i] != v[i] {
        fits := false;
      }
    }
    assert v[..|v|] == v;
    keep := !alle && (!f.last || fits);
    if keep {
      var r := FindSlot(h, bseen, roleKey);
      if r >= 0 {
        keep := false;
      }
    }
  }

  // ----- from produced vectors to kept combinations -----

  /** A combination with its produced vector: what it is held against, its keys in B and in the set, its ordinal. */
  datatype Tried = Tried(f: Filt, vec: seq<nat>, roleKey: Key, setKey: Key, ord: nat)

  predicate Passes(bseen: seq<Slot>, c: Tried) {
    !AllE(c.f, c.vec) && (c.f.last ==> GivesRows(c.f, c.vec)) && !InB(bseen, c.roleKey)
  }

  predicate Refused(c: Tried) {
    REFUSED in c.vec
  }

  ghost predicate Masked(tried: seq<Tried>) {
    forall c :: 0 <= c < |tried| ==> |tried[c].f.mask| == |tried[c].vec|
  }

  /** Those of the first `n` combinations that pass the test, by index. */
  function Passing(bseen: seq<Slot>, tried: seq<Tried>, n: nat): (ps: seq<nat>)
    requires n <= |tried|
    ensures |ps| <= n
  {
    if n == 0 then [] else Passing(bseen, tried, n - 1) + if Passes(bseen, tried[n - 1]) then [n - 1] else []
  }

  lemma {:induction false} PassingExact(bseen: seq<Slot>, tried: seq<Tried>, n: nat)
    requires n <= |tried|
    ensures forall p: nat :: p in Passing(bseen, tried, n) <==> p < n && Passes(bseen, tried[p])
  {
    if n > 0 {
      PassingExact(bseen, tried, n - 1);
    }
  }

  predicate Within(xs: seq<nat>, n: nat) {
    forall i :: 0 <= i < |xs| ==> xs[i] < n
  }

  predicate Ascending(xs: seq<nat>) {
    forall i, j :: 0 <= i < j < |xs| ==> xs[i] < xs[j]
  }

  lemma {:induction false} PassingWithin(bseen: seq<Slot>, tried: seq<Tried>, n: nat)
    requires n <= |tried|
    ensures Within(Passing(bseen, tried, n), n) && Ascending(Passing(bseen, tried, n))
  {
    if n > 0 {
      PassingWithin(bseen, tried, n - 1);
    }
  }

  function Candidates(tried: seq<Tried>, ps: seq<nat>): (cs: seq<Element>)
    requires Within(ps, |tried|)
    ensures |cs| == |ps| && forall x :: 0 <= x < |ps| ==> cs[x] == Element(tried[ps[x]].setKey, tried[ps[x]].ord)
  {
    seq(|ps|, x requires 0 <= x < |ps| => Element(tried[ps[x]].setKey, tried[ps[x]].ord))
  }

  /** What the size's passing combinations put into its table. */
  function SizeCandidates(bseen: seq<Slot>, tried: seq<Tried>): (cs: seq<Element>)
    ensures |cs| == |Passing(bseen, tried, |tried|)|
  {
    PassingWithin(bseen, tried, |tried|);
    Candidates(tried, Passing(bseen, tried, |tried|))
  }

  /** It passes, and no passing combination with its fingerprint comes before it. */
  ghost predicate Survives(bseen: seq<Slot>, tried: seq<Tried>, c: nat) {
    && c < |tried| && Passes(bseen, tried[c])
    && forall d :: 0 <= d < |tried| && Passes(bseen, tried[d]) && tried[d].setKey == tried[c].setKey ==>
         tried[c].ord <= tried[d].ord
  }

  lemma SurvivorIsFirst(bseen: seq<Slot>, tried: seq<Tried>, x: nat)
    requires x < |Passing(bseen, tried, |tried|)|
    ensures Survives(bseen, tried, Passing(bseen, tried, |tried|)[x]) <==> First(SizeCandidates(bseen, tried), x)
  {
    PassingExact(bseen, tried, |tried|);
    var ps, cs := Passing(bseen, tried, |tried|), SizeCandidates(bseen, tried);
    assert ps[x] in ps;
    if Survives(bseen, tried, ps[x]) {
      forall u | 0 <= u < |cs| && cs[u].key == cs[x].key
        ensures cs[x].put <= cs[u].put
      {
        assert ps[u] in ps;
      }
    }
    if First(cs, x) {
      forall d | 0 <= d < |tried| && Passes(bseen, tried[d]) && tried[d].setKey == tried[ps[x]].setKey
        ensures tried[ps[x]].ord <= tried[d].ord
      {
        assert d in ps;
        var u :| 0 <= u < |ps| && ps[u] == d;
        assert cs[u].key == cs[x].key;
      }
    }
  }

  /** The passing combinations at the given places. */
  function Chosen(ps: seq<nat>, first: seq<nat>): (kept: seq<nat>)
    requires Within(first, |ps|)
    ensures |kept| == |first| && forall i :: 0 <= i < |kept| ==> kept[i] == ps[first[i]]
  {
    seq(|first|, i requires 0 <= i < |first| => ps[first[i]])
  }

  /** The places of the first ones among the passing, as the filter lists them. */
  ghost predicate Firsts(bseen: seq<Slot>, tried: seq<Tried>, first: seq<nat>) {
    && Within(first, |Passing(bseen, tried, |tried|)|) && Ascending(first)
    && forall x: nat ::
         x in first <==> x < |Passing(bseen, tried, |tried|)| && First(SizeCandidates(bseen, tried), x)
  }

  lemma ChosenSurvives(bseen: seq<Slot>, tried: seq<Tried>, first: seq<nat>, c: nat)
    requires Firsts(bseen, tried, first)
    ensures c in Chosen(Passing(bseen, tried, |tried|), first) <==> Survives(bseen, tried, c)
  {
    var ps := Passing(bseen, tried, |tried|);
    var kept := Chosen(ps, first);
    if c in kept {
      var i :| 0 <= i < |kept| && kept[i] == c;
      assert first[i] in first;
      SurvivorIsFirst(bseen, tried, first[i]);
    }
    if Survives(bseen, tried, c) {
      assert c in ps by {
        PassingExact(bseen, tried, |tried|);
      }
      var x :| 0 <= x < |ps| && ps[x] == c;
      SurvivorIsFirst(bseen, tried, x);
      assert x in first;
      var i :| 0 <= i < |first| && first[i] == x;
      assert kept[i] == c;
    }
  }

  lemma ChosenExact(bseen: seq<Slot>, tried: seq<Tried>, first: seq<nat>)
    requires Firsts(bseen, tried, first)
    ensures var kept := Chosen(Passing(bseen, tried, |tried|), first);
      Ascending(kept) && forall c: nat :: c in kept <==> Survives(bseen, tried, c)
  {
    PassingWithin(bseen, tried, |tried|);
    forall c: nat
      ensures c in Chosen(Passing(bseen, tried, |tried|), first) <==> Survives(bseen, tried, c)
    {
      ChosenSurvives(bseen, tried, first, c);
    }
  }

  /** The keep pass writes the chosen ones out. */
  method Choose(ps: seq<nat>, first: seq<nat>) returns (kept: seq<nat>)
    requires Within(first, |ps|)
    ensures kept == Chosen(ps, first)
  {
    kept := [];
    for i := 0 to |first|
      invariant |kept| == i && forall k :: 0 <= k < i ==> kept[k] == ps[first[k]]
    {
      kept := kept + [ps[first[i]]];
    }
  }

  method Test(h: Hashing, bseen: seq<Slot>, c: Tried) returns (keep: bool, refused: bool)
    requires GoodTable(h, bseen) && |c.f.mask| == |c.vec|
    ensures keep == Passes(bseen, c) && refused == Refused(c)
  {
    keep, refused := ClaimTest(h, c.f, c.vec, bseen, c.roleKey);
  }

  /** The claim test over every combination of the size. */
  method TestAll(h: Hashing, bseen: seq<Slot>, tried: seq<Tried>) returns (ps: seq<nat>, refused: bool)
    requires GoodTable(h, bseen) && Masked(tried)
    ensures ps == Passing(bseen, tried, |tried|)
    ensures refused <==> exists c :: 0 <= c < |tried| && Refused(tried[c])
  {
    ps, refused := [], false;
    for c := 0 to |tried|
      invariant ps == Passing(bseen, tried, c)
      invariant refused <==> exists d :: 0 <= d < c && Refused(tried[d])
    {
      var keep, bad := Test(h, bseen, tried[c]);
      if keep {
        ps := ps + [c];
      }
      refused := refused || bad;
    }
  }

  /**
   * A size's combinations, end to end: the claim test, any number of aborted claim passes and a clean one, the keep
   * pass. A combination is kept exactly when it passes and nothing that passes with its fingerprint comes before it.
   */
  method FilterCombinations(
    h: Hashing, bseen: seq<Slot>, tried: seq<Tried>, cap: nat, ghost passes: seq<seq<nat>>, out: seq<Slot>)
    returns (kept: seq<nat>, refused: bool)
    requires GoodTable(h, bseen) && Masked(tried)
    requires cap >= 1 && cap >= 2 * |tried| && Claimings(h, Blank(cap), SizeCandidates(bseen, tried), passes, out)
    ensures Ascending(kept)
    ensures forall c: nat :: c in kept <==> Survives(bseen, tried, c)
    ensures refused <==> exists c :: 0 <= c < |tried| && Refused(tried[c])
  {
    var ps;
    ps, refused := TestAll(h, bseen, tried);
    var first := FilterSize(h, SizeCandidates(bseen, tried), cap, passes, out);
    assert Within(first, |ps|) by {
      assert forall i :: 0 <= i < |first| ==> first[i] in first;
    }
    assert Firsts(bseen, tried, first);
    kept := Choose(ps, first);
    ChosenExact(bseen, tried, first);
  }

  // ----- combinations in product order -----

  datatype Combo = Combo(i1: nat, i2: nat, i3: nat)

  /** The entries combination `j` picks from its three pools. */
  function Pick(j: nat, c2: nat, c3: nat): Combo
    requires c2 > 0 && c3 > 0
  {
    Combo(j / (c3 * c2), (j / c3) % c2, j % c3)
  }

  function Index(c: Combo, c2: nat, c3: nat): nat {
    (c.i1 * c2 + c.i2) * c3 + c.i3
  }

  lemma TimesAtLeast(a: nat, d: nat)
    requires a >= 1
    ensures a * d >= d
  {
  }

  lemma DivMod(q: nat, r: nat, d: nat)
    requires r < d
    ensures (q * d + r) / d == q && (q * d + r) % d == r
  {
    var x := q * d + r;
    var y, z := x / d, x % d;
    assert x == d * y + z;
    if q > y {
      assert q * d == y * d + (q - y) * d;
      TimesAtLeast(q - y, d);
    } else if q < y {
      assert y * d == q * d + (y - q) * d;
      TimesAtLeast(y - q, d);
    }
  }

  lemma DivDiv(j: nat, c2: nat, c3: nat)
    requires c2 > 0 && c3 > 0
    ensures c3 * c2 > 0 && j / (c3 * c2) == j / c3 / c2
  {
    var q, r := j / c3 / c2, j / c3 % c2;
    assert j == (q * c2 + r) * c3 + j % c3;
    var low := r * c3 + j % c3;
    assert r * c3 <= (c2 - 1) * c3;
    assert low < c3 * c2;
    assert j == q * (c3 * c2) + low;
    DivMod(q, low, c3 * c2);
  }

  /** Every combination is picked by exactly one number, and the last pool turns fastest. */
  lemma PickInverse(j: nat, c: Combo, c2: nat, c3: nat)
    requires c2 > 0 && c3 > 0
    ensures Pick(j, c2, c3).i2 < c2 && Pick(j, c2, c3).i3 < c3
    ensures c.i2 < c2 && c.i3 < c3 ==> (Pick(j, c2, c3) == c <==> j == Index(c, c2, c3))
  {
    DivDiv(j, c2, c3);
    var p := Pick(j, c2, c3);
    assert j / c3 == p.i1 * c2 + p.i2;
    assert j == Index(p, c2, c3);
    if c.i2 < c2 && c.i3 < c3 && j == Index(c, c2, c3) {
      DivMod(c.i1 * c2 + c.i2, c.i3, c3);
      DivMod(c.i1, c.i2, c2);
    }
  }
}
