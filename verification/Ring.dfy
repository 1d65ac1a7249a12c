/** Walking round an open-addressing table of `n` slots, and counting its slots. */
module Ring {
  /** The slot `k` steps round from `home`. */
  function Round(n: nat, home: nat, k: nat): nat {
    if home + k < n then home + k else home + k - n
  }

  /** How many steps from `home` reach slot `i`. */
  function Steps(n: nat, home: nat, i: nat): (k: nat)
    requires i < n && home < n
    ensures k < n && Round(n, home, k) == i
  {
    if i >= home then i - home else i + n - home
  }

  lemma StepsUnique(n: nat, home: nat, k: nat)
    requires k < n && home < n
    ensures Round(n, home, k) < n && Steps(n, home, Round(n, home, k)) == k
  {
  }

  function Below(n: nat): (c: set<nat>)
    ensures |c| == n && forall x: nat :: x in c <==> x < n
  {
    if n == 0 then {} else Below(n - 1) + {n - 1}
  }

  /** Distinct things drawn from a set are no more than the set. */
  lemma {:induction false} Pigeonhole<T>(xs: seq<T>, c: set<T>)
    requires forall i, j :: 0 <= i < j < |xs| ==> xs[i] != xs[j]
    requires forall x :: x in xs ==> x in c
    ensures |xs| <= |c|
    decreases |xs|
  {
    if xs != [] {
      var init, last := xs[..|xs| - 1], xs[|xs| - 1];
      assert last in xs;
      Pigeonhole(init, c - {last});
    }
  }
}
