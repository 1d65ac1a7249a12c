/** The provider closure: a depth-first walk over a call graph that may have cycles. */
module Closure {
  import opened CoreIr
  import Blocks
  import Codec

  /**
   * What the walk takes from outside: the `--lib` bundles, the registry's bodies, the builtins, SHA-256, the Fn type.
   */
  datatype Env = Env(
    available: map<Hash, Bundle>, byBody: map<Hash, Hash>, builtin: Hash -> bool, sha: seq<Byte> -> Hash, fnType: Hash)

  /** The provider a node calls, if it calls one. */
  function NodeKey(env: Env, n: Node): Option<Hash> {
    match n
    case CCall(target, _, name) =>
      if env.builtin(target) then None
      else if target in env.byBody then Some(env.byBody[target])
      else if name != [] && env.sha(name) == target then Some(target)
      else None
    case _ => None
  }

  /** The provider a pool entry refers to: a function reference is a dependency too. */
  function EntryKey(env: Env, e: PoolEntry): Option<Hash> {
    if e.defHash != env.fnType || |e.payload| != 32 || env.builtin(e.payload) then None
    else Some(if e.payload in env.byBody then env.byBody[e.payload] else e.payload)
  }

  predicate NodeNeeds(env: Env, b: Bundle, i: nat, k: Hash) {
    i < |b.nodes| && NodeKey(env, b.nodes[i]) == Some(k)
  }

  predicate EntryNeeds(env: Env, b: Bundle, i: nat, k: Hash) {
    i < |b.pool| && EntryKey(env, b.pool[i]) == Some(k)
  }

  ghost predicate Needs(env: Env, b: Bundle, k: Hash) {
    (exists i: nat :: NodeNeeds(env, b, i, k)) || exists i: nat :: EntryNeeds(env, b, i, k)
  }

  /** A call that is no builtin: by the body its identity names, or by the hash of its own name. */
  predicate CallsProvider(env: Env, n: Node, k: Hash) {
    && n.CCall? && !env.builtin(n.target)
    && (n.target in env.byBody ==> k == env.byBody[n.target])
    && (n.target !in env.byBody ==> k == n.target && n.name != [] && env.sha(n.name) == k)
  }

  /** A function reference to something that is no builtin. */
  predicate RefersTo(env: Env, e: PoolEntry, k: Hash) {
    && e.defHash == env.fnType && |e.payload| == 32 && !env.builtin(e.payload)
    && (e.payload in env.byBody ==> k == env.byBody[e.payload])
    && (e.payload !in env.byBody ==> k == e.payload)
  }

  /** A bundle needs what its calls and its function references lead to, and nothing else. */
  lemma NeedsExact(env: Env, b: Bundle, k: Hash)
    ensures Needs(env, b, k) <==>
      (exists n :: n in b.nodes && CallsProvider(env, n, k)) || (exists e :: e in b.pool && RefersTo(env, e, k))
  {
    if n :| n in b.nodes && CallsProvider(env, n, k) {
      var i: nat :| i < |b.nodes| && b.nodes[i] == n;
      assert NodeNeeds(env, b, i, k);
    }
    if e :| e in b.pool && RefersTo(env, e, k) {
      var i: nat :| i < |b.pool| && b.pool[i] == e;
      assert EntryNeeds(env, b, i, k);
    }
    if i: nat :| NodeNeeds(env, b, i, k) {
      assert CallsProvider(env, b.nodes[i], k);
    }
    if i: nat :| EntryNeeds(env, b, i, k) {
      assert RefersTo(env, b.pool[i], k);
    }
  }

  // ----- reachability -----

  /** A chain of needs from bundle `b`; every provider but the last is available. */
  ghost predicate Path(env: Env, b: Bundle, path: seq<Hash>)
    decreases |path|
  {
    path != [] && Needs(env, b, path[0]) &&
    (|path| == 1 || (path[0] in env.available && Path(env, env.available[path[0]], path[1..])))
  }

  ghost predicate Reaches(env: Env, b: Bundle, k: Hash) {
    exists path :: Path(env, b, path) && path[|path| - 1] == k
  }

  lemma NeedReaches(env: Env, b: Bundle, k: Hash)
    requires Needs(env, b, k)
    ensures Reaches(env, b, k)
  {
    assert Path(env, b, [k]);
  }

  lemma ReachesOn(env: Env, b: Bundle, k: Hash, d: Hash)
    requires Needs(env, b, k) && k in env.available && Reaches(env, env.available[k], d)
    ensures Reaches(env, b, d)
  {
    var path :| Path(env, env.available[k], path) && path[|path| - 1] == d;
    var longer := [k] + path;
    assert longer[1..] == path && longer[|longer| - 1] == d;
    assert Path(env, b, longer) by {
      hide Needs;
    }
  }

  /** Everything available in the set has all its needs in the set. */
  ghost predicate ClosedUnder(env: Env, visited: set<Hash>) {
    forall k, d :: k in visited && k in env.available && Needs(env, env.available[k], d) ==> d in visited
  }

  lemma {:induction false} ClosedReaches(env: Env, visited: set<Hash>, b: Bundle, path: seq<Hash>)
    requires ClosedUnder(env, visited) && Path(env, b, path) && forall d :: Needs(env, b, d) ==> d in visited
    ensures path[|path| - 1] in visited
    decreases |path|
  {
    if |path| > 1 {
      ClosedReaches(env, visited, env.available[path[0]], path[1..]);
    }
  }

  // ----- what a stretch of the walk does -----

  datatype Walk = Walk(visited: set<Hash>, ordered: seq<Hash>)

  /** The keys listed between two moments. */
  predicate ListedIn(a: Walk, c: Walk, i: nat, k: Hash) {
    |a.ordered| <= i < |c.ordered| && c.ordered[i] == k
  }

  /** Key `k` was visited between the two moments: if it is available it is listed, and all its needs are visited. */
  ghost predicate Handled(env: Env, a: Walk, c: Walk, k: Hash) {
    k in c.visited && k !in a.visited && k in env.available ==>
      && (exists i: nat :: ListedIn(a, c, i, k))
      && (forall d :: Needs(env, env.available[k], d) ==> d in c.visited)
  }

  ghost predicate NewlyListed(env: Env, a: Walk, c: Walk, i: nat)
    requires i < |c.ordered|
  {
    var k := c.ordered[i];
    k in env.available && k in c.visited && k !in a.visited
  }

  ghost predicate Extends(env: Env, a: Walk, c: Walk) {
    && a.visited <= c.visited
    && a.ordered <= c.ordered
    && (forall k :: Handled(env, a, c, k))
    && (forall i: nat :: |a.ordered| <= i < |c.ordered| ==> NewlyListed(env, a, c, i))
    && (forall i: nat, j: nat :: |a.ordered| <= i < j < |c.ordered| ==> c.ordered[i] != c.ordered[j])
  }

  lemma ExtendsSelf(env: Env, a: Walk)
    ensures Extends(env, a, a)
  {
  }

  lemma ExtendsTransitive(env: Env, a: Walk, m: Walk, c: Walk)
    requires Extends(env, a, m) && Extends(env, m, c)
    ensures Extends(env, a, c)
  {
    assert forall i: nat :: i < |m.ordered| ==> c.ordered[i] == m.ordered[i];
    forall k
      ensures Handled(env, a, c, k)
    {
      assert Handled(env, a, m, k) && Handled(env, m, c, k);
      if k in c.visited && k !in a.visited && k in env.available {
        if k in m.visited {
          var i: nat :| ListedIn(a, m, i, k);
          assert ListedIn(a, c, i, k);
        } else {
          var i: nat :| ListedIn(m, c, i, k);
          assert ListedIn(a, c, i, k);
        }
      }
    }
    forall i: nat | |a.ordered| <= i < |c.ordered|
      ensures NewlyListed(env, a, c, i)
    {
      assert i < |m.ordered| ==> NewlyListed(env, a, m, i);
      assert i >= |m.ordered| ==> NewlyListed(env, m, c, i);
    }
    forall i: nat, j: nat | |a.ordered| <= i < j < |c.ordered|
      ensures c.ordered[i] != c.ordered[j]
    {
      assert i < |m.ordered| ==> NewlyListed(env, a, m, i);
      assert j >= |m.ordered| ==> NewlyListed(env, m, c, j);
    }
  }

  // ----- dependencies first -----

  /** A witness that nothing depends on itself: every need ranks below its user. */
  ghost predicate Ranked(env: Env, rank: Hash -> nat) {
    forall k, d :: k in env.available && Needs(env, env.available[k], d) ==> rank(d) < rank(k)
  }

  /** No provider needs itself, directly or through others. */
  ghost predicate Acyclic(env: Env) {
    forall k :: k in env.available ==> !Reaches(env, env.available[k], k)
  }

  /** The available providers one provider reaches. */
  ghost function Below(env: Env, k: Hash): set<Hash>
    requires k in env.available
  {
    set d | d in env.available.Keys && Reaches(env, env.available[k], d)
  }

  /** How much hangs below a provider: a rank, when nothing hangs below itself. */
  ghost function Depth(env: Env): Hash -> nat {
    (k: Hash) => if k in env.available then 1 + |Below(env, k)| else 0
  }

  lemma SmallerSet(a: set<Hash>, c: set<Hash>)
    requires a <= c
    ensures |a| <= |c| && (a != c ==> |a| < |c|)
  {
    assert c == a + (c - a);
  }

  lemma DepthBound(env: Env, k: Hash)
    ensures Depth(env)(k) <= 1 + |env.available.Keys|
  {
    if k in env.available {
      SmallerSet(Below(env, k), env.available.Keys);
    }
  }

  lemma AcyclicIsRanked(env: Env)
    requires Acyclic(env)
    ensures Ranked(env, Depth(env))
  {
    forall k, d | k in env.available && Needs(env, env.available[k], d)
      ensures Depth(env)(d) < Depth(env)(k)
    {
      if d in env.available {
        NeedReaches(env, env.available[k], d);
        forall x | x in Below(env, d)
          ensures x in Below(env, k)
        {
          ReachesOn(env, env.available[k], d, x);
        }
        assert d in Below(env, k) && d !in Below(env, d);
        SmallerSet(Below(env, d), Below(env, k));
      }
    }
  }

  predicate ListedBefore(ordered: seq<Hash>, i: nat, d: Hash) {
    exists j :: 0 <= j < i && j < |ordered| && ordered[j] == d
  }

  /** Everything listed comes after the available providers it needs. */
  ghost predicate NeedsFirst(env: Env, ordered: seq<Hash>) {
    forall i: nat, d :: i < |ordered| && ordered[i] in env.available && Needs(env, env.available[ordered[i]], d) &&
      d in env.available
      ==> ListedBefore(ordered, i, d)
  }

  /** Visited, available and not yet listed: the providers whose walk is under way. */
  predicate UnderWay(env: Env, w: Walk, k: Hash) {
    k in w.visited && k in env.available && k !in w.ordered
  }

  ghost predicate Above(env: Env, w: Walk, rank: Hash -> nat, bound: nat) {
    forall k :: UnderWay(env, w, k) ==> rank(k) >= bound
  }

  /** What holds at every moment of a walk over ranked providers, below `bound`. */
  ghost predicate Tidy(env: Env, w: Walk, rank: Hash -> nat, bound: nat) {
    Ranked(env, rank) ==> NeedsFirst(env, w.ordered) && Above(env, w, rank, bound)
  }

  class Collector {
    const env: Env
    var visited: set<Hash>
    var ordered: seq<Hash>

    constructor (env: Env)
      ensures this.env == env && visited == {} && ordered == []
    {
      this.env := env;
      visited, ordered := {}, [];
    }

    ghost function Now(): Walk
      reads this
    {
      Walk(visited, ordered)
    }

    /** One provider: nothing if it was met before, else its own needs first and then itself. */
    method Visit(key: Hash, ghost from: Bundle, ghost rank: Hash -> nat, ghost bound: nat)
      requires Needs(env, from, key) && Tidy(env, Now(), rank, bound) && (Ranked(env, rank) ==> rank(key) < bound)
      modifies this
      ensures Extends(env, old(Now()), Now()) && key in visited
      ensures forall k :: k in visited && k !in old(visited) ==> Reaches(env, from, k)
      ensures Tidy(env, Now(), rank, bound)
      decreases env.available.Keys - visited, 0
    {
      ghost var start := Now();
      if key in visited {
        ExtendsSelf(env, start);
        return;
      }
      visited := visited + {key};
      NeedReaches(env, from, key);
      if key in env.available {
        ghost var entered := Now();
        assert Tidy(env, entered, rank, rank(key)) by {
          EnterTidy(env, start, entered, key, rank, bound);
        }
        Dfs(env.available[key], rank, rank(key));
        ghost var left := Now();
        ordered := ordered + [key];
        LeaveExtends(env, start, entered, left, Now(), key);
        LeaveTidy(env, start, entered, left, Now(), key, rank, bound);
        forall k | k in visited && k !in old(visited)
          ensures Reaches(env, from, k)
        {
          if k != key {
            ReachesOn(env, from, key, k);
          }
        }
      } else {
        SkipExtends(env, start, Now(), key);
        SkipTidy(env, start, Now(), key, rank, bound);
      }
    }

    method VisitNodes(b: Bundle, ghost rank: Hash -> nat, ghost bound: nat)
      requires Tidy(env, Now(), rank, bound) && (Ranked(env, rank) ==> forall d :: Needs(env, b, d) ==> rank(d) < bound)
      modifies this
      ensures Extends(env, old(Now()), Now()) && Tidy(env, Now(), rank, bound)
      ensures forall i: nat, d :: NodeNeeds(env, b, i, d) ==> d in visited
      ensures forall k :: k in visited && k !in old(visited) ==> Reaches(env, b, k)
      decreases env.available.Keys - visited, 1
    {
      hide Ranked, Reaches, Tidy;
      ExtendsSelf(env, Now());
      for i := 0 to |b.nodes|
        invariant Extends(env, old(Now()), Now()) && Tidy(env, Now(), rank, bound)
        invariant forall j: nat, d :: j < i && NodeNeeds(env, b, j, d) ==> d in visited
        invariant forall k :: k in visited && k !in old(visited) ==> Reaches(env, b, k)
      {
        var key := NodeKey(env, b.nodes[i]);
        if key.Some? {
          assert NodeNeeds(env, b, i, key.value);
          ghost var mid := Now();
          Visit(key.value, b, rank, bound);
          ExtendsTransitive(env, old(Now()), mid, Now());
        }
      }
    }

    method VisitPool(b: Bundle, ghost rank: Hash -> nat, ghost bound: nat)
      requires Tidy(env, Now(), rank, bound) && (Ranked(env, rank) ==> forall d :: Needs(env, b, d) ==> rank(d) < bound)
      modifies this
      ensures Extends(env, old(Now()), Now()) && Tidy(env, Now(), rank, bound)
      ensures forall i: nat, d :: EntryNeeds(env, b, i, d) ==> d in visited
      ensures forall k :: k in visited && k !in old(visited) ==> Reaches(env, b, k)
      decreases env.available.Keys - visited, 1
    {
      hide Ranked, Reaches, Tidy;
      ExtendsSelf(env, Now());
      for i := 0 to |b.pool|
        invariant Extends(env, old(Now()), Now()) && Tidy(env, Now(), rank, bound)
        invariant forall j: nat, d :: j < i && EntryNeeds(env, b, j, d) ==> d in visited
        invariant forall k :: k in visited && k !in old(visited) ==> Reaches(env, b, k)
      {
        var key := EntryKey(env, b.pool[i]);
        if key.Some? {
          assert EntryNeeds(env, b, i, key.value);
          ghost var mid := Now();
          Visit(key.value, b, rank, bound);
          ExtendsTransitive(env, old(Now()), mid, Now());
        }
      }
    }

    /**
     * From a closed set, exactly what the bundle reaches is visited besides; what is available of it is listed, once.
     */
    method Dfs(b: Bundle, ghost rank: Hash -> nat, ghost bound: nat)
      requires Tidy(env, Now(), rank, bound) && (Ranked(env, rank) ==> forall d :: Needs(env, b, d) ==> rank(d) < bound)
      modifies this
      ensures Extends(env, old(Now()), Now()) && Tidy(env, Now(), rank, bound)
      ensures forall d :: Needs(env, b, d) ==> d in visited
      ensures forall k :: k in visited && k !in old(visited) ==> Reaches(env, b, k)
      ensures ClosedUnder(env, old(visited)) ==>
        ClosedUnder(env, visited) && forall k :: k in visited <==> k in old(visited) || Reaches(env, b, k)
      decreases env.available.Keys - visited, 2
    {
      VisitNodes(b, rank, bound);
      ghost var mid := Now();
      VisitPool(b, rank, bound);
      ExtendsTransitive(env, old(Now()), mid, Now());
      if ClosedUnder(env, old(visited)) {
        ClosedStays(env, old(Now()), Now());
        forall k
          ensures k in visited <==> k in old(visited) || Reaches(env, b, k)
        {
          WalkMeets(env, old(Now()), Now(), b, k);
        }
      }
    }
  }

  // ----- the steps of a visit -----

  lemma EnterTidy(env: Env, start: Walk, entered: Walk, key: Hash, rank: Hash -> nat, bound: nat)
    requires Tidy(env, start, rank, bound) && (Ranked(env, rank) ==> rank(key) < bound)
    requires entered == Walk(start.visited + {key}, start.ordered)
    ensures Tidy(env, entered, rank, rank(key))
  {
    if Ranked(env, rank) {
      forall k | UnderWay(env, entered, k)
        ensures rank(k) >= rank(key)
      {
        assert k == key || UnderWay(env, start, k);
      }
    }
  }

  lemma LeaveExtends(env: Env, start: Walk, entered: Walk, left: Walk, end: Walk, key: Hash)
    requires key !in start.visited && key in env.available && entered == Walk(start.visited + {key}, start.ordered)
    requires Extends(env, entered, left) && end == Walk(left.visited, left.ordered + [key])
    requires forall d :: Needs(env, env.available[key], d) ==> d in left.visited
    ensures Extends(env, start, end)
  {
    forall k
      ensures Handled(env, start, end, k)
    {
      assert Handled(env, entered, left, k);
      if k == key {
        assert ListedIn(start, end, |left.ordered|, key);
      } else if k in end.visited && k !in start.visited && k in env.available {
        var i: nat :| ListedIn(entered, left, i, k);
        assert ListedIn(start, end, i, k);
      }
    }
    forall i: nat | |start.ordered| <= i < |end.ordered|
      ensures NewlyListed(env, start, end, i) && (i < |left.ordered| ==> end.ordered[i] != key)
    {
      assert i < |left.ordered| ==> NewlyListed(env, entered, left, i);
    }
  }

  lemma LeaveTidy(env: Env, start: Walk, entered: Walk, left: Walk, end: Walk, key: Hash, rank: Hash -> nat, bound: nat)
    requires entered == Walk(start.visited + {key}, start.ordered) && key in env.available
    requires Tidy(env, start, rank, bound) && Tidy(env, left, rank, rank(key)) && Extends(env, entered, left)
    requires end == Walk(left.visited, left.ordered + [key])
    requires forall d :: Needs(env, env.available[key], d) ==> d in left.visited
    ensures Tidy(env, end, rank, bound)
  {
    if Ranked(env, rank) {
      forall i: nat, d | i < |end.ordered| && end.ordered[i] in env.available &&
        Needs(env, env.available[end.ordered[i]], d) && d in env.available
        ensures ListedBefore(end.ordered, i, d)
      {
        if i < |left.ordered| {
          assert ListedBefore(left.ordered, i, d);
          var j :| 0 <= j < i && j < |left.ordered| && left.ordered[j] == d;
          assert end.ordered[j] == d;
        } else {
          assert !UnderWay(env, left, d);
          var j :| 0 <= j < |left.ordered| && left.ordered[j] == d;
          assert end.ordered[j] == d;
        }
      }
      forall k | UnderWay(env, end, k)
        ensures rank(k) >= bound
      {
        assert Handled(env, entered, left, k);
        assert k in left.ordered ==> k in end.ordered;
        assert k in start.visited || k == key;
        assert k in start.ordered ==> k in left.ordered;
        assert UnderWay(env, start, k);
      }
    }
  }

  lemma SkipExtends(env: Env, start: Walk, end: Walk, key: Hash)
    requires key !in env.available && end == Walk(start.visited + {key}, start.ordered)
    ensures Extends(env, start, end)
  {
  }

  lemma SkipTidy(env: Env, start: Walk, end: Walk, key: Hash, rank: Hash -> nat, bound: nat)
    requires Tidy(env, start, rank, bound) && key !in env.available && end == Walk(start.visited + {key}, start.ordered)
    ensures Tidy(env, end, rank, bound)
  {
    forall k | UnderWay(env, end, k)
      ensures UnderWay(env, start, k)
    {
    }
  }

  // ----- the whole closure -----

  /** Met by the walk of root `j` among the extra roots. */
  ghost predicate MetFrom(env: Env, extra: seq<Hash>, j: nat, k: Hash) {
    j < |extra| && (extra[j] == k || (extra[j] in env.available && Reaches(env, env.available[extra[j]], k)))
  }

  /** Met from the root bundle or from one of the first `n` extra roots. */
  ghost predicate Met(env: Env, root: Bundle, extra: seq<Hash>, n: nat, k: Hash) {
    Reaches(env, root, k) || exists j: nat :: j < n && MetFrom(env, extra, j, k)
  }

  /** An extra root whose turn comes before anything else has met it. */
  ghost predicate FirstMetAt(env: Env, root: Bundle, extra: seq<Hash>, j: nat, k: Hash) {
    j < |extra| && extra[j] == k && !Met(env, root, extra, j, k)
  }

  /**
   * What is listed after the first `n` extra roots: what is available and met, and extra roots met in their own turn.
   */
  ghost predicate Wanted(env: Env, root: Bundle, extra: seq<Hash>, n: nat, k: Hash) {
    (k in env.available && Met(env, root, extra, n, k)) || exists j: nat :: j < n && FirstMetAt(env, root, extra, j, k)
  }

  predicate NoRepeats(ordered: seq<Hash>) {
    forall i, j :: 0 <= i < j < |ordered| ==> ordered[i] != ordered[j]
  }

  lemma ClosedStays(env: Env, a: Walk, c: Walk)
    requires ClosedUnder(env, a.visited) && Extends(env, a, c)
    ensures ClosedUnder(env, c.visited)
  {
    forall k, d | k in c.visited && k in env.available && Needs(env, env.available[k], d)
      ensures d in c.visited
    {
      assert Handled(env, a, c, k);
    }
  }

  /** A walk from a closed set visits exactly what the bundle reaches, besides what was visited before. */
  lemma WalkMeets(env: Env, a: Walk, c: Walk, b: Bundle, k: Hash)
    requires ClosedUnder(env, a.visited) && Extends(env, a, c)
    requires forall d :: Needs(env, b, d) ==> d in c.visited
    requires forall x :: x in c.visited && x !in a.visited ==> Reaches(env, b, x)
    ensures k in c.visited <==> k in a.visited || Reaches(env, b, k)
  {
    ClosedStays(env, a, c);
    if Reaches(env, b, k) {
      var path :| Path(env, b, path) && path[|path| - 1] == k;
      ClosedReaches(env, c.visited, b, path);
    }
  }

  lemma ListedGrows(env: Env, a: Walk, c: Walk, k: Hash)
    requires Extends(env, a, c)
    ensures k in c.ordered <==> k in a.ordered || (k in env.available && k in c.visited && k !in a.visited)
  {
    assert Handled(env, a, c, k);
    if k in c.ordered && k !in a.ordered {
      var i :| 0 <= i < |c.ordered| && c.ordered[i] == k;
      assert i >= |a.ordered| && NewlyListed(env, a, c, i);
    }
    if k in env.available && k in c.visited && k !in a.visited {
      var i: nat :| ListedIn(a, c, i, k);
    }
  }

  lemma NoRepeatsStay(env: Env, a: Walk, c: Walk)
    requires Extends(env, a, c) && NoRepeats(a.ordered) && forall k :: k in a.ordered ==> k in a.visited
    ensures NoRepeats(c.ordered)
    ensures forall k :: k in c.ordered ==> k in c.visited
  {
    forall i, j | 0 <= i < j < |c.ordered|
      ensures c.ordered[i] != c.ordered[j]
    {
      assert i < |a.ordered| ==> c.ordered[i] == a.ordered[i] && a.ordered[i] in a.visited;
      assert j < |a.ordered| ==> c.ordered[j] == a.ordered[j];
      assert j >= |a.ordered| ==> NewlyListed(env, a, c, j);
    }
    forall k | k in c.ordered
      ensures k in c.visited
    {
      ListedGrows(env, a, c, k);
    }
  }

  /** After the root and the first `n` extra roots: what is visited, and what is listed. */
  ghost predicate Progress(env: Env, root: Bundle, extra: seq<Hash>, n: nat, w: Walk) {
    && ClosedUnder(env, w.visited)
    && NoRepeats(w.ordered)
    && (forall k :: k in w.visited <==> Met(env, root, extra, n, k))
    && (forall k :: k in w.ordered <==> Wanted(env, root, extra, n, k))
  }

  lemma MetNext(env: Env, root: Bundle, extra: seq<Hash>, n: nat, k: Hash)
    ensures Met(env, root, extra, n + 1, k) <==> Met(env, root, extra, n, k) || MetFrom(env, extra, n, k)
  {
    if j: nat :| j < n + 1 && MetFrom(env, extra, j, k) {
      assert j == n || (j < n && MetFrom(env, extra, j, k));
    }
  }

  lemma WantedNext(env: Env, root: Bundle, extra: seq<Hash>, n: nat, k: Hash)
    ensures Wanted(env, root, extra, n + 1, k) <==>
      || (k in env.available && Met(env, root, extra, n + 1, k))
      || Wanted(env, root, extra, n, k)
      || FirstMetAt(env, root, extra, n, k)
  {
    MetNext(env, root, extra, n, k);
    if j: nat :| j < n + 1 && FirstMetAt(env, root, extra, j, k) {
      assert j == n || (j < n && FirstMetAt(env, root, extra, j, k));
    }
  }

  lemma WantedIsMet(env: Env, root: Bundle, extra: seq<Hash>, n: nat, k: Hash)
    requires Wanted(env, root, extra, n, k)
    ensures Met(env, root, extra, n, k)
  {
    if !(k in env.available && Met(env, root, extra, n, k)) {
      var j: nat :| j < n && FirstMetAt(env, root, extra, j, k);
      assert MetFrom(env, extra, j, k);
    }
  }

  lemma RootProgress(env: Env, root: Bundle, extra: seq<Hash>, w: Walk)
    requires Extends(env, Walk({}, []), w)
    requires forall d :: Needs(env, root, d) ==> d in w.visited
    requires forall k :: k in w.visited ==> Reaches(env, root, k)
    ensures Progress(env, root, extra, 0, w)
  {
    var a := Walk({}, []);
    ClosedStays(env, a, w);
    NoRepeatsStay(env, a, w);
    forall k
      ensures k in w.visited <==> Met(env, root, extra, 0, k)
      ensures k in w.ordered <==> Wanted(env, root, extra, 0, k)
    {
      WalkMeets(env, a, w, root, k);
      ListedGrows(env, a, w, k);
    }
  }

  /** After the walk of an extra root's own bundle, if it has one. */
  ghost predicate Walked(env: Env, e: Hash, a: Walk, c: Walk) {
    if e in env.available then
      && Extends(env, a, c)
      && (forall d :: Needs(env, env.available[e], d) ==> d in c.visited)
      && (forall k :: k in c.visited && k !in a.visited ==> Reaches(env, env.available[e], k))
    else c == a
  }

  function Entered(c: Walk, e: Hash): Walk {
    if e in c.visited then c else Walk(c.visited + {e}, c.ordered + [e])
  }

  lemma WalkedVisits(env: Env, e: Hash, a: Walk, c: Walk, k: Hash)
    requires ClosedUnder(env, a.visited) && Walked(env, e, a, c)
    ensures k in c.visited <==> k in a.visited || (e in env.available && Reaches(env, env.available[e], k))
    ensures k in c.ordered <==> k in a.ordered || (k in env.available && k in c.visited && k !in a.visited)
  {
    if e in env.available {
      WalkMeets(env, a, c, env.available[e], k);
      ListedGrows(env, a, c, k);
    }
  }

  lemma TurnVisits(env: Env, root: Bundle, extra: seq<Hash>, n: nat, a: Walk, c: Walk, k: Hash)
    requires n < |extra| && Progress(env, root, extra, n, a) && Walked(env, extra[n], a, c)
    ensures k in Entered(c, extra[n]).visited <==> Met(env, root, extra, n + 1, k)
  {
    WalkedVisits(env, extra[n], a, c, k);
    MetNext(env, root, extra, n, k);
  }

  lemma TurnLists(env: Env, root: Bundle, extra: seq<Hash>, n: nat, a: Walk, c: Walk, k: Hash)
    requires n < |extra| && Progress(env, root, extra, n, a) && Walked(env, extra[n], a, c)
    ensures k in Entered(c, extra[n]).ordered <==> Wanted(env, root, extra, n + 1, k)
  {
    var e := extra[n];
    WalkedVisits(env, e, a, c, k);
    WalkedVisits(env, e, a, c, e);
    WantedNext(env, root, extra, n, k);
    TurnVisits(env, root, extra, n, a, c, k);
    assert k in Entered(c, e).ordered <==> k in c.ordered || (k == e && e !in c.visited);
    assert k in env.available && k in a.visited ==> k in a.ordered;
  }

  lemma TurnProgress(env: Env, root: Bundle, extra: seq<Hash>, n: nat, a: Walk, c: Walk)
    requires n < |extra| && Progress(env, root, extra, n, a) && Walked(env, extra[n], a, c)
    ensures Progress(env, root, extra, n + 1, Entered(c, extra[n]))
  {
    var e := extra[n];
    forall k
      ensures k in Entered(c, e).visited <==> Met(env, root, extra, n + 1, k)
      ensures k in Entered(c, e).ordered <==> Wanted(env, root, extra, n + 1, k)
    {
      TurnVisits(env, root, extra, n, a, c, k);
      TurnLists(env, root, extra, n, a, c, k);
    }
    forall k | k in a.ordered
      ensures k in a.visited
    {
      WantedIsMet(env, root, extra, n, k);
    }
    if e in env.available {
      ClosedStays(env, a, c);
      NoRepeatsStay(env, a, c);
    }
    assert forall k :: k in c.ordered ==> k in c.visited;
  }

  lemma EnteredTidy(env: Env, c: Walk, e: Hash, rank: Hash -> nat)
    requires Ranked(env, rank) && NeedsFirst(env, c.ordered) && (forall k :: UnderWay(env, c, k) ==> rank(k) >= rank(e))
    requires e in env.available ==> forall d :: Needs(env, env.available[e], d) ==> d in c.visited
    ensures NeedsFirst(env, Entered(c, e).ordered)
  {
    var w := Entered(c, e);
    forall i: nat, d | i < |w.ordered| && w.ordered[i] in env.available &&
      Needs(env, env.available[w.ordered[i]], d) && d in env.available
      ensures ListedBefore(w.ordered, i, d)
    {
      if i < |c.ordered| {
        assert ListedBefore(c.ordered, i, d);
        var j :| 0 <= j < i && j < |c.ordered| && c.ordered[j] == d;
        assert w.ordered[j] == d;
      } else {
        assert !UnderWay(env, c, d);
        var j :| 0 <= j < |c.ordered| && c.ordered[j] == d;
        assert w.ordered[j] == d;
      }
    }
  }

  /**
   * The closure: no provider twice, exactly the wanted ones, and, when no provider needs itself through others, every
   * provider after the available ones it needs.
   */
  method CollectClosure(env: Env, root: Bundle, extra: seq<Hash>) returns (ordered: seq<Hash>)
    ensures NoRepeats(ordered)
    ensures forall k :: k in ordered <==> Wanted(env, root, extra, |extra|, k)
    ensures (forall j :: 0 <= j < |extra| ==> extra[j] in env.available) ==>
      forall k :: k in ordered <==> k in env.available && Met(env, root, extra, |extra|, k)
    ensures Acyclic(env) ==> NeedsFirst(env, ordered)
  {
    ghost var rank, top := Depth(env), 2 + |env.available.Keys|;
    forall d
      ensures rank(d) < top
    {
      DepthBound(env, d);
    }
    var walk := new Collector(env);
    walk.Dfs(root, rank, top);
    RootProgress(env, root, extra, walk.Now());
    for n := 0 to |extra|
      invariant walk.env == env && Progress(env, root, extra, n, walk.Now())
      invariant Ranked(env, rank) ==> NeedsFirst(env, walk.ordered)
    {
      var e := extra[n];
      ghost var before := walk.Now();
      assert forall k :: !UnderWay(env, before, k);
      if e in env.available {
        walk.Dfs(env.available[e], rank, rank(e));
      }
      ghost var after := walk.Now();
      TurnProgress(env, root, extra, n, before, after);
      if Ranked(env, rank) {
        EnteredTidy(env, after, e, rank);
      }
      if e !in walk.visited {
        walk.visited := walk.visited + {e};
        walk.ordered := walk.ordered + [e];
      }
    }
    if Acyclic(env) {
      AcyclicIsRanked(env);
    }
    if forall j :: 0 <= j < |extra| ==> extra[j] in env.available {
      forall k
        ensures Wanted(env, root, extra, |extra|, k) <==> k in env.available && Met(env, root, extra, |extra|, k)
      {
        AvailableRootsExact(env, root, extra, k);
      }
    }
    ordered := walk.ordered;
  }

  // ----- extra roots -----

  /** When all extra roots are available, the closure is exactly the available providers the roots reach or are. */
  lemma AvailableRootsExact(env: Env, root: Bundle, extra: seq<Hash>, k: Hash)
    requires forall j :: 0 <= j < |extra| ==> extra[j] in env.available
    ensures Wanted(env, root, extra, |extra|, k) <==> k in env.available && Met(env, root, extra, |extra|, k)
  {
    if Wanted(env, root, extra, |extra|, k) {
      WantedIsMet(env, root, extra, |extra|, k);
    }
  }

  /** An extra root is listed unless it is unavailable and something before its turn had already met it. */
  lemma ExtraRootListed(env: Env, root: Bundle, extra: seq<Hash>, j: nat)
    requires j < |extra| && forall i: nat :: i < j ==> extra[i] != extra[j]
    ensures Wanted(env, root, extra, |extra|, extra[j]) <==>
      || extra[j] in env.available
      || !(Reaches(env, root, extra[j]) || exists i: nat ::
           i < j && extra[i] in env.available && Reaches(env, env.available[extra[i]], extra[j]))
  {
    var e := extra[j];
    assert MetFrom(env, extra, j, e);
    if e !in env.available {
      if Met(env, root, extra, j, e) {
        forall i: nat | i < |extra|
          ensures !FirstMetAt(env, root, extra, i, e)
        {
          if extra[i] == e {
            MetLater(env, root, extra, j, i, e);
          }
        }
      } else {
        assert FirstMetAt(env, root, extra, j, e);
      }
      assert forall i: nat :: i < j ==>
        (MetFrom(env, extra, i, e) <==> extra[i] in env.available && Reaches(env, env.available[extra[i]], e));
    }
  }

  lemma MetLater(env: Env, root: Bundle, extra: seq<Hash>, n: nat, m: nat, k: Hash)
    requires n <= m && Met(env, root, extra, n, k)
    ensures Met(env, root, extra, m, k)
  {
    if !Reaches(env, root, k) {
      var j: nat :| j < n && MetFrom(env, extra, j, k);
    }
  }

  /** A root bundle with one call, to the provider of a given name. */
  function Caller(identity: Hash, name: seq<Byte>): Bundle {
    Bundle([], [CCall(identity, [], name)], NodeRef(0))
  }

  /** It is a bundle the decoder lets in. */
  lemma CallerIsAccepted(o: Codec.Outside, identity: Hash, name: seq<Byte>)
    requires o.utf8(name) && |name| < 0x1_0000_0000 && |identity| == 32
    ensures Codec.Deserialized(o, Codec.EncodeBundle(Caller(identity, name))) == Some(Caller(identity, name))
  {
    var b := Caller(identity, name);
    assert Codec.NodeFits(o, b.nodes[0], 0, 0);
    assert Blocks.StackAt(b.nodes, 0) == [] && Blocks.StackAt(b.nodes, 1) == [];
    Codec.CanonicalCodec(o, Codec.EncodeBundle(b), b);
  }

  /** Not every extra root is listed: one that is unavailable and that the root bundle calls is left out. */
  lemma CalledExtraRootIsDropped(o: Codec.Outside, sha: seq<Byte> -> Hash, fnType: Hash, name: seq<Byte>)
    requires o.utf8(name) && 0 < |name| < 0x1_0000_0000 && |sha(name)| == 32
    ensures var env := Env(map[], map[], (h: Hash) => false, sha, fnType); var root := Caller(sha(name), name);
      && Codec.Deserialized(o, Codec.EncodeBundle(root)) == Some(root)
      && !Wanted(env, root, [sha(name)], 1, sha(name))
  {
    var env := Env(map[], map[], (h: Hash) => false, sha, fnType);
    var root, e := Caller(sha(name), name), sha(name);
    CallerIsAccepted(o, e, name);
    assert NodeNeeds(env, root, 0, e);
    NeedReaches(env, root, e);
    ExtraRootListed(env, root, [e], 0);
  }
}
