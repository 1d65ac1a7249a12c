/** The block rules of Core IR 0.6 and the scope-stack verifier that enforces them. */
module Blocks {
  import opened CoreIr

  datatype ArmSide = Then | Else

  /** The block structure of a verified bundle: see `Describes` for what each table holds. */
  datatype BlockTables = BlockTables(
    home: seq<Option<nat>>,
    partner: seq<Option<nat>>,
    arm: seq<Option<(nat, ArmSide)>>)

  datatype Verdict = Accepted(tables: BlockTables) | Refused(rule: nat)

  // ----- what the rules mean, on the node list alone -----

  /** The CBlocks open just before node `i`, outermost first. */
  function StackAt(nodes: seq<Node>, i: nat): seq<nat>
    requires i <= |nodes|
  {
    if i == 0 then [] else
    var s := StackAt(nodes, i - 1);
    match nodes[i - 1]
    case CBlock => s + [i - 1]
    case CEnd(_) => if s == [] then [] else s[..|s| - 1]
    case _ => s
  }

  function Top(s: seq<nat>): Option<nat> {
    if s == [] then None else Some(s[|s| - 1])
  }

  /** The innermost block a node sits in; a block's own CBlock and CEnd sit outside it. */
  function HomeOf(nodes: seq<Node>, i: nat): Option<nat>
    requires i < |nodes|
  {
    Top(StackAt(nodes, if nodes[i].CEnd? then i + 1 else i))
  }

  ghost predicate Closes(nodes: seq<Node>, block: nat, end: nat) {
    && end < |nodes|
    && nodes[end].CEnd?
    && Top(StackAt(nodes, end)) == Some(block)
  }

  predicate IsEnd(nodes: seq<Node>, r: Ref) {
    r.NodeRef? && r.i < |nodes| && nodes[r.i].CEnd?
  }

  /** Rule 2: the arms of a CIf are the blocks written directly before it. */
  predicate ArmsInPlace(b: Bundle, unit: Hash, k: nat)
    requires k < |b.nodes| && b.nodes[k].CIf?
  {
    TwoArmed(b.nodes, k) || OneArmed(b, unit, k)
  }

  predicate TwoArmed(nodes: seq<Node>, k: nat)
    requires k < |nodes| && nodes[k].CIf?
  {
    var t, e := nodes[k].then_, nodes[k].else_;
    && k >= 1
    && e == NodeRef(k - 1) && nodes[k - 1].CEnd?
    && IsEnd(nodes, t)
    && Top(StackAt(nodes, k - 1)) == Some(t.i + 1)
  }

  predicate OneArmed(b: Bundle, unit: Hash, k: nat)
    requires k < |b.nodes| && b.nodes[k].CIf?
  {
    var t, e := b.nodes[k].then_, b.nodes[k].else_;
    && k >= 1
    && t == NodeRef(k - 1) && b.nodes[k - 1].CEnd?
    && e.PoolRef? && e.i < |b.pool| && b.pool[e.i].defHash == unit
  }

  ghost predicate IsArm(nodes: seq<Node>, j: nat) {
    exists k :: 0 <= k < |nodes| && nodes[k].CIf? && NodeRef(j) in [nodes[k].then_, nodes[k].else_]
  }

  /** Rules 3 to 5: a read under the open blocks `open` names a value that is in scope there. */
  ghost predicate Readable(b: Bundle, open: seq<nat>, r: Ref) {
    r.NodeRef? ==>
      && r.i < |b.nodes|
      && !b.nodes[r.i].CBlock?
      && (b.nodes[r.i].CEnd? ==> !IsArm(b.nodes, r.i))
      && (HomeOf(b.nodes, r.i).Some? ==> HomeOf(b.nodes, r.i).value in open)
  }

  ghost predicate HasOpen(nodes: seq<Node>, j: nat)
    requires j <= |nodes|
  {
    StackAt(nodes, j) != []
  }

  ghost predicate Balanced(nodes: seq<Node>) {
    && (forall j {:trigger HasOpen(nodes, j)} :: 0 <= j < |nodes| && nodes[j].CEnd? ==> HasOpen(nodes, j))
    && StackAt(nodes, |nodes|) == []
  }

  ghost predicate ArmsPlaced(b: Bundle, unit: Hash) {
    forall k {:trigger ArmsInPlace(b, unit, k)} :: 0 <= k < |b.nodes| && b.nodes[k].CIf? ==> ArmsInPlace(b, unit, k)
  }

  ghost predicate Scoped(b: Bundle) {
    && (forall u, r :: 0 <= u < |b.nodes| && r in Uses(b.nodes[u]) ==> Readable(b, StackAt(b.nodes, u), r))
    && Readable(b, [], b.result)
  }

  /** The Core IR 0.6 block rules 1 to 5. */
  ghost predicate BlockRules(b: Bundle, unit: Hash) {
    Balanced(b.nodes) && ArmsPlaced(b, unit) && Scoped(b)
  }

  /** What the tables of an accepted bundle hold. */
  ghost predicate Describes(t: BlockTables, nodes: seq<Node>) {
    && |t.home| == |t.partner| == |t.arm| == |nodes|
    && (forall j {:trigger HomeOf(nodes, j)} :: 0 <= j < |nodes| ==> t.home[j] == HomeOf(nodes, j))
    && PartnersBefore(nodes, t.partner, |nodes|)
    && ArmsBefore(nodes, t.arm, |nodes|)
  }

  ghost predicate ArmOf(nodes: seq<Node>, j: nat, k: nat, side: ArmSide) {
    && j < |nodes| && nodes[j].CEnd?
    && k < |nodes| && nodes[k].CIf?
    && NodeRef(j) == (if side == Then then nodes[k].then_ else nodes[k].else_)
  }

  // ----- stack discipline -----

  /** Each prefix of the stack is the stack at the block that tops it. */
  lemma {:induction false} StackPrefix(nodes: seq<Node>, j: nat, p: nat)
    requires j <= |nodes| && p < |StackAt(nodes, j)|
    ensures var x := StackAt(nodes, j)[p];
      x < j && nodes[x].CBlock? && StackAt(nodes, x) == StackAt(nodes, j)[..p]
  {
    var s := StackAt(nodes, j - 1);
    if p < |s| {
      StackPrefix(nodes, j - 1, p);
      assert StackAt(nodes, j)[..p] == s[..p];
    } else {
      assert StackAt(nodes, j)[..p] == s;
    }
  }

  /** A block open later was open ever since it was opened. */
  lemma {:induction false} StaysOpen(nodes: seq<Node>, x: nat, i: nat, j: nat)
    requires x < i <= j <= |nodes| && x in StackAt(nodes, j)
    ensures x in StackAt(nodes, i)
    decreases j
  {
    if i < j {
      StaysOpen(nodes, x, i, j - 1);
    }
  }

  /** Between a CBlock and its CEnd the block stays open on top of the enclosing stack. */
  lemma BlockInterior(nodes: seq<Node>, block: nat, end: nat)
    requires Closes(nodes, block, end)
    ensures block < end && nodes[block].CBlock?
    ensures StackAt(nodes, end) == StackAt(nodes, block) + [block]
    ensures StackAt(nodes, end + 1) == StackAt(nodes, block)
    ensures forall j :: block < j <= end ==> StackAt(nodes, block) + [block] <= StackAt(nodes, j)
  {
    var s := StackAt(nodes, end);
    StackPrefix(nodes, end, |s| - 1);
    assert s == s[..|s| - 1] + [block];
    forall j | block < j <= end
      ensures StackAt(nodes, block) + [block] <= StackAt(nodes, j)
    {
      StaysOpen(nodes, block, j, end);
      var sj := StackAt(nodes, j);
      var p :| 0 <= p < |sj| && sj[p] == block;
      StackPrefix(nodes, j, p);
      assert sj[..p + 1] == StackAt(nodes, block) + [block];
    }
  }

  lemma ClosesUnique(nodes: seq<Node>, block: nat, e1: nat, e2: nat)
    requires Closes(nodes, block, e1) && Closes(nodes, block, e2)
    ensures e1 == e2
  {
    if e1 != e2 {
      var lo, hi := if e1 < e2 then e1 else e2, if e1 < e2 then e2 else e1;
      BlockInterior(nodes, block, lo);
      BlockInterior(nodes, block, hi);
      assert false;
    }
  }

  /** In a balanced list every CBlock is closed. */
  lemma {:induction false} EveryBlockCloses(nodes: seq<Node>, block: nat, j: nat) returns (end: nat)
    requires block < j <= |nodes| && block in StackAt(nodes, j)
    requires StackAt(nodes, |nodes|) == []
    ensures j <= end && Closes(nodes, block, end)
    decreases |nodes| - j
  {
    var s := StackAt(nodes, j);
    if block in StackAt(nodes, j + 1) {
      end := EveryBlockCloses(nodes, block, j + 1);
    } else {
      end := j;
      assert s == s[..|s| - 1] + [s[|s| - 1]];
    }
  }

  /** An arm's CEnd stands directly before its CIf, or directly before the else block that does. */
  lemma ArmPlace(b: Bundle, unit: Hash, k: nat, j: nat)
    requires k < |b.nodes| && b.nodes[k].CIf? && ArmsInPlace(b, unit, k)
    requires NodeRef(j) in [b.nodes[k].then_, b.nodes[k].else_]
    ensures j < k && (j + 1 == k || (b.nodes[j + 1].CBlock? && Closes(b.nodes, j + 1, k - 1)))
  {
    if j + 1 != k {
      BlockInterior(b.nodes, j + 1, k - 1);
    }
  }

  /** Two CIfs that both have their arms in place share no arm. */
  lemma ArmsDisjoint(b: Bundle, unit: Hash, k1: nat, k2: nat, j: nat)
    requires k1 < k2 < |b.nodes| && b.nodes[k1].CIf? && b.nodes[k2].CIf?
    requires ArmsInPlace(b, unit, k1) && ArmsInPlace(b, unit, k2)
    requires NodeRef(j) in [b.nodes[k1].then_, b.nodes[k1].else_]
    ensures NodeRef(j) !in [b.nodes[k2].then_, b.nodes[k2].else_]
  {
    if NodeRef(j) in [b.nodes[k2].then_, b.nodes[k2].else_] {
      ArmPlace(b, unit, k1, j);
      ArmPlace(b, unit, k2, j);
      if Closes(b.nodes, j + 1, k1 - 1) && Closes(b.nodes, j + 1, k2 - 1) {
        ClosesUnique(b.nodes, j + 1, k1 - 1, k2 - 1);
      }
      assert false;
    }
  }

  // ----- the verifier -----

  /** The arm table after the CIfs before `k`: each claimed CEnd, and only those. */
  ghost predicate ArmsBefore(nodes: seq<Node>, arm: seq<Option<(nat, ArmSide)>>, k: nat) {
    && |arm| == |nodes|
    && (forall j {:trigger arm[j]} :: 0 <= j < |nodes| && arm[j].Some? ==>
          arm[j].value.0 < k && ArmOf(nodes, j, arm[j].value.0, arm[j].value.1))
    && (forall i {:trigger Claimed(nodes, arm, i)} :: 0 <= i < k && i < |nodes| && nodes[i].CIf? ==>
          Claimed(nodes, arm, i))
  }

  ghost predicate Claimed(nodes: seq<Node>, arm: seq<Option<(nat, ArmSide)>>, i: nat)
    requires |arm| == |nodes| && i < |nodes| && nodes[i].CIf?
  {
    && (IsEnd(nodes, nodes[i].then_) ==> arm[nodes[i].then_.i] == Some((i, Then)))
    && (IsEnd(nodes, nodes[i].else_) ==> arm[nodes[i].else_.i] == Some((i, Else)))
  }

  function Claim(nodes: seq<Node>, arm: seq<Option<(nat, ArmSide)>>, r: Ref, k: nat, side: ArmSide):
      seq<Option<(nat, ArmSide)>>
    requires |arm| == |nodes|
  {
    if IsEnd(nodes, r) then arm[r.i := Some((k, side))] else arm
  }

  lemma ClaimStep(nodes: seq<Node>, arm: seq<Option<(nat, ArmSide)>>, k: nat)
    requires k < |nodes| && nodes[k].CIf? && ArmsBefore(nodes, arm, k)
    requires IsEnd(nodes, nodes[k].then_) ==> arm[nodes[k].then_.i].None?
    requires IsEnd(nodes, nodes[k].else_) ==> arm[nodes[k].else_.i].None? && nodes[k].then_ != nodes[k].else_
    ensures ArmsBefore(nodes, Claim(nodes, Claim(nodes, arm, nodes[k].then_, k, Then), nodes[k].else_, k, Else), k + 1)
  {
    var arm' := Claim(nodes, Claim(nodes, arm, nodes[k].then_, k, Then), nodes[k].else_, k, Else);
    forall i | 0 <= i < k && nodes[i].CIf?
      ensures Claimed(nodes, arm', i)
    {
      assert Claimed(nodes, arm, i);
    }
  }

  /** The partner table after the CEnds before `k`. */
  ghost predicate PartnersBefore(nodes: seq<Node>, partner: seq<Option<nat>>, k: nat) {
    && k <= |nodes| == |partner|
    && (forall j {:trigger HasOpen(nodes, j)} :: 0 <= j < k && nodes[j].CEnd? ==>
          HasOpen(nodes, j) && partner[j] == Top(StackAt(nodes, j)))
    && (forall j, e: nat {:trigger Closes(nodes, j, e)} :: 0 <= j < |nodes| && nodes[j].CBlock? ==>
          (partner[j] == Some(e) <==> e < k && Closes(nodes, j, e)))
  }

  lemma PartnerSkip(nodes: seq<Node>, partner: seq<Option<nat>>, k: nat)
    requires k < |nodes| && PartnersBefore(nodes, partner, k) && !nodes[k].CEnd?
    ensures PartnersBefore(nodes, partner, k + 1)
  {
    forall j | 0 <= j < k + 1 && nodes[j].CEnd?
      ensures HasOpen(nodes, j) && partner[j] == Top(StackAt(nodes, j))
    {
      assert HasOpen(nodes, j);
    }
    forall j, e: nat | 0 <= j < |nodes| && nodes[j].CBlock?
      ensures partner[j] == Some(e) <==> e < k + 1 && Closes(nodes, j, e)
    {
      assert Closes(nodes, j, e) ==> nodes[e].CEnd?;
    }
  }

  lemma PartnerStep(nodes: seq<Node>, partner: seq<Option<nat>>, open: nat, k: nat)
    requires PartnersBefore(nodes, partner, k) && Closes(nodes, open, k)
    ensures open < k && nodes[open].CBlock?
    ensures PartnersBefore(nodes, partner[open := Some(k)][k := Some(open)], k + 1)
  {
    BlockInterior(nodes, open, k);
    var after := partner[open := Some(k)][k := Some(open)];
    forall j | 0 <= j < k + 1 && nodes[j].CEnd?
      ensures HasOpen(nodes, j) && after[j] == Top(StackAt(nodes, j))
    {
      assert j < k ==> HasOpen(nodes, j);
    }
    forall j, e: nat | 0 <= j < |nodes| && nodes[j].CBlock?
      ensures after[j] == Some(e) <==> e < k + 1 && Closes(nodes, j, e)
    {
      assert Closes(nodes, j, e) ==> nodes[e].CEnd?;
      if j == open && Closes(nodes, j, e) {
        ClosesUnique(nodes, open, e, k);
      }
    }
  }

  lemma NotClaimed(t: BlockTables, nodes: seq<Node>, j: nat)
    requires Describes(t, nodes) && j < |nodes| && nodes[j].CEnd? && t.arm[j].None?
    ensures !IsArm(nodes, j)
  {
    forall k | 0 <= k < |nodes| && nodes[k].CIf?
      ensures NodeRef(j) !in [nodes[k].then_, nodes[k].else_]
    {
      assert Claimed(nodes, t.arm, k);
    }
  }

  lemma HomeIsBlock(nodes: seq<Node>, j: nat)
    requires j < |nodes| && HomeOf(nodes, j).Some?
    ensures HomeOf(nodes, j).value < j && nodes[HomeOf(nodes, j).value].CBlock?
  {
    var at := if nodes[j].CEnd? then j + 1 else j;
    StackPrefix(nodes, at, |StackAt(nodes, at)| - 1);
  }

  /** How one node changes the set of open blocks. */
  lemma OpenStep(nodes: seq<Node>, u: nat)
    requires u < |nodes| && (nodes[u].CEnd? ==> StackAt(nodes, u) != [])
    ensures nodes[u].CBlock? ==> forall j :: j in StackAt(nodes, u + 1) <==> j in StackAt(nodes, u) || j == u
    ensures nodes[u].CEnd? ==>
      forall j :: j in StackAt(nodes, u + 1) <==> j in StackAt(nodes, u) && Some(j) != Top(StackAt(nodes, u))
    ensures !nodes[u].CBlock? && !nodes[u].CEnd? ==> StackAt(nodes, u + 1) == StackAt(nodes, u)
  {
    var s := StackAt(nodes, u);
    if nodes[u].CEnd? {
      var last := s[|s| - 1];
      assert s == StackAt(nodes, u + 1) + [last];
      forall p | 0 <= p < |s| - 1
        ensures s[p] != last
      {
        StackIncreases(nodes, u, p, |s| - 1);
      }
      forall j
        ensures j in s <==> j in StackAt(nodes, u + 1) || j == last
      {
      }
    }
  }

  lemma StackIncreases(nodes: seq<Node>, j: nat, p: nat, q: nat)
    requires j <= |nodes| && p < q < |StackAt(nodes, j)|
    ensures StackAt(nodes, j)[p] < StackAt(nodes, j)[q]
  {
    StackPrefix(nodes, j, q);
    StackPrefix(nodes, StackAt(nodes, j)[q], p);
  }

  /** Rule 3 never refuses more than rule 2 does: a CIf naming a claimed CEnd is itself misplaced. */
  lemma ClaimedTwice(b: Bundle, unit: Hash, arm: seq<Option<(nat, ArmSide)>>, k: nat, j: nat)
    requires k < |b.nodes| && b.nodes[k].CIf?
    requires forall i {:trigger ArmsInPlace(b, unit, i)} :: 0 <= i < k && b.nodes[i].CIf? ==> ArmsInPlace(b, unit, i)
    requires ArmsBefore(b.nodes, arm, k)
    requires j < |b.nodes| && arm[j].Some? && NodeRef(j) in [b.nodes[k].then_, b.nodes[k].else_]
    ensures !ArmsInPlace(b, unit, k)
  {
    var (i, side) := arm[j].value;
    assert ArmOf(b.nodes, j, i, side);
    if ArmsInPlace(b, unit, k) {
      ArmsDisjoint(b, unit, i, k, j);
    }
  }

  lemma SameArmTwice(b: Bundle, unit: Hash, k: nat)
    requires k < |b.nodes| && b.nodes[k].CIf? && b.nodes[k].then_ == b.nodes[k].else_
    ensures !ArmsInPlace(b, unit, k)
  {
    if ArmsInPlace(b, unit, k) {
      BlockInterior(b.nodes, k, k - 1);
    }
  }

  /** The CIf case of the first pass: claim both arms, then check where they stand. */
  method ClaimArms(b: Bundle, unit: Hash, k: nat, partner: seq<Option<nat>>, arm: seq<Option<(nat, ArmSide)>>)
    returns (ok: bool, rule: nat, arm': seq<Option<(nat, ArmSide)>>)
    requires k < |b.nodes| && b.nodes[k].CIf? && ArmsBefore(b.nodes, arm, k)
    requires forall i {:trigger ArmsInPlace(b, unit, i)} :: 0 <= i < k && b.nodes[i].CIf? ==> ArmsInPlace(b, unit, i)
    requires PartnersBefore(b.nodes, partner, k)
    ensures ok <==> ArmsInPlace(b, unit, k)
    ensures ok ==> ArmsBefore(b.nodes, arm', k + 1)
  {
    var t, e := b.nodes[k].then_, b.nodes[k].else_;
    arm' := arm;
    if IsEnd(b.nodes, t) && arm[t.i].Some? {
      ClaimedTwice(b, unit, arm, k, t.i);
      return false, 3, arm;
    }
    arm' := Claim(b.nodes, arm, t, k, Then);
    if IsEnd(b.nodes, e) && arm'[e.i].Some? {
      if e == t { SameArmTwice(b, unit, k); } else { ClaimedTwice(b, unit, arm, k, e.i); }
      return false, 3, arm;
    }
    arm' := Claim(b.nodes, arm', e, k, Else);
    ClaimStep(b.nodes, arm, k);
    var unitElse := e.PoolRef? && e.i < |b.pool| && b.pool[e.i].defHash == unit;
    ok := false;
    if t.NodeRef? && e.NodeRef? && k >= 1 && e.i == k - 1 && IsEnd(b.nodes, e) {
      assert HasOpen(b.nodes, e.i);
      var open := partner[e.i].value;
      ok := open >= 1 && t.i == open - 1 && IsEnd(b.nodes, t);
    } else if t.NodeRef? && k >= 1 && t.i == k - 1 && IsEnd(b.nodes, t) {
      ok := unitElse;
    }
    rule := 2;
  }

  /** First pass: match blocks (rule 1) and tie every arm to its CIf (rules 2 and 3). */
  method MatchBlocks(b: Bundle, unit: Hash) returns (r: Verdict)
    ensures r.Accepted? <==> Balanced(b.nodes) && ArmsPlaced(b, unit)
    ensures r.Accepted? ==> Describes(r.tables, b.nodes)
  {
    hide ArmsInPlace;
    var nodes := b.nodes;
    var n := |nodes|;
    var home: seq<Option<nat>> := seq(n, _ => None);
    var partner: seq<Option<nat>> := seq(n, _ => None);
    var arm: seq<Option<(nat, ArmSide)>> := seq(n, _ => None);
    var stack: seq<nat> := [];
    var k := 0;
    while k < n
      invariant k <= n && |home| == n && ArmsBefore(nodes, arm, k)
      invariant stack == StackAt(nodes, k)
      invariant forall j {:trigger home[j]} :: 0 <= j < k ==> home[j] == HomeOf(nodes, j)
      invariant PartnersBefore(nodes, partner, k)
      invariant forall i {:trigger ArmsInPlace(b, unit, i)} :: 0 <= i < k && nodes[i].CIf? ==> ArmsInPlace(b, unit, i)
    {
      home := home[k := Top(stack)];
      if !nodes[k].CEnd? {
        PartnerSkip(nodes, partner, k);
      }
      match nodes[k] {
        case CBlock =>
          stack := stack + [k];
        case CEnd(_) =>
          if stack == [] {
            assert !HasOpen(nodes, k);
            return Refused(1);
          }
          var open := stack[|stack| - 1];
          stack := stack[..|stack| - 1];
          PartnerStep(nodes, partner, open, k);
          partner := partner[open := Some(k)][k := Some(open)];
          home := home[k := Top(stack)];
        case CIf(_, _, _) =>
          var ok, rule;
          ok, rule, arm := ClaimArms(b, unit, k, partner, arm);
          if !ok {
            return Refused(rule);
          }
        case _ =>
      }
      k := k + 1;
    }
    if stack != [] {
      return Refused(1);
    }
    r := Accepted(BlockTables(home, partner, arm));
  }

  /** Whether a read of `r` under the blocks marked open obeys rules 3 to 5, and which rule it breaks if not. */
  method CheckRef(b: Bundle, t: BlockTables, open: seq<bool>, ghost stack: seq<nat>, r: Ref)
    returns (ok: bool, rule: nat)
    requires Describes(t, b.nodes) && Balanced(b.nodes) && InRange(b, r, |b.nodes|)
    requires |open| == |b.nodes| && forall j :: 0 <= j < |open| ==> (open[j] <==> j in stack)
    ensures ok <==> Readable(b, stack, r)
    ensures !ok ==> rule in {3, 4, 5}
  {
    if r.PoolRef? {
      return true, 0;
    }
    var j := r.i;
    if b.nodes[j].CBlock? {
      return false, 5;
    }
    if b.nodes[j].CEnd? && t.arm[j].Some? {
      return false, 3;
    }
    if b.nodes[j].CEnd? {
      NotClaimed(t, b.nodes, j);
    }
    var at := t.home[j];
    if at.None? {
      return true, 0;
    }
    HomeIsBlock(b.nodes, j);
    if open[at.value] {
      return true, 0;
    }
    // Walk outwards to name the refusal: inside some arm (rule 4) or a closed plain block (rule 5).
    ok, rule := false, 5;
    while at.Some? && !open[at.value]
      invariant at.Some? ==> 0 <= at.value < |b.nodes| && b.nodes[at.value].CBlock?
      invariant !ok && rule in {4, 5}
      decreases if at.Some? then at.value + 1 else 0
    {
      var block := at.value;
      assert t.partner[block].Some? ==> Closes(b.nodes, block, t.partner[block].value);
      if t.partner[block].Some? && t.arm[t.partner[block].value].Some? {
        rule := 4;
      }
      at := t.home[block];
      if at.Some? { HomeIsBlock(b.nodes, block); }
    }
  }

  method CheckRefs(b: Bundle, t: BlockTables, open: seq<bool>, ghost stack: seq<nat>, refs: seq<Ref>)
    returns (ok: bool, rule: nat)
    requires Describes(t, b.nodes) && Balanced(b.nodes)
    requires forall r :: r in refs ==> InRange(b, r, |b.nodes|)
    requires |open| == |b.nodes| && forall j :: 0 <= j < |open| ==> (open[j] <==> j in stack)
    ensures ok <==> forall r :: r in refs ==> Readable(b, stack, r)
    ensures !ok ==> rule in {3, 4, 5}
  {
    ok, rule := true, 0;
    var a := 0;
    while a < |refs|
      invariant a <= |refs| && ok
      invariant forall i :: 0 <= i < a ==> Readable(b, stack, refs[i])
    {
      ok, rule := CheckRef(b, t, open, stack, refs[a]);
      if !ok {
        return;
      }
      a := a + 1;
    }
  }

  /** Second pass: every read is in scope where it stands (rules 3 to 5). */
  method CheckScopes(b: Bundle, t: BlockTables) returns (ok: bool, rule: nat)
    requires Describes(t, b.nodes) && Balanced(b.nodes) && RefsResolve(b)
    ensures ok <==> Scoped(b)
  {
    var n := |b.nodes|;
    var open: seq<bool> := seq(n, _ => false);
    var u := 0;
    while u < n
      invariant u <= n && |open| == n
      invariant forall j :: 0 <= j < n ==> (open[j] <==> j in StackAt(b.nodes, u))
      invariant forall v, r :: 0 <= v < u && r in Uses(b.nodes[v]) ==> Readable(b, StackAt(b.nodes, v), r)
    {
      ok, rule := CheckRefs(b, t, open, StackAt(b.nodes, u), Uses(b.nodes[u]));
      if !ok {
        return;
      }
      assert b.nodes[u].CEnd? ==> HasOpen(b.nodes, u);
      OpenStep(b.nodes, u);
      if b.nodes[u].CBlock? {
        open := open[u := true];
      } else if b.nodes[u].CEnd? {
        StackPrefix(b.nodes, u, |StackAt(b.nodes, u)| - 1);
        open := open[t.partner[u].value := false];
      }
      u := u + 1;
    }
    ok, rule := CheckRef(b, t, open, [], b.result);
  }

  /** The verifier accepts exactly the bundles that obey the block rules, and describes their blocks. */
  method VerifyBlocks(b: Bundle, unit: Hash) returns (r: Verdict)
    requires RefsResolve(b)
    ensures r.Accepted? <==> BlockRules(b, unit)
    ensures r.Accepted? ==> Describes(r.tables, b.nodes)
  {
    r := MatchBlocks(b, unit);
    if r.Accepted? {
      var ok, rule := CheckScopes(b, r.tables);
      if !ok {
        r := Refused(rule);
      }
    }
  }
}
