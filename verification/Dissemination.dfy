/** The dissemination pattern: powers of two, the number of rounds, the peer
    lists of a team, and the set of nodes whose news a node has after k rounds. */
module Dissemination {

  function Pow2(k: nat): (r: nat)
    ensures r >= 1
  {
    if k == 0 then 1 else 2 * Pow2(k - 1)
  }

  /** `size` is ceil(lg n): the least k with 2^k >= n. */
  ghost predicate IsCeilLg(n: nat, size: nat) {
    Pow2(size) >= n && (size > 0 ==> Pow2(size - 1) < n)
  }

  lemma {:induction false} Pow2Monotone(a: nat, b: nat)
    requires a <= b
    ensures Pow2(a) <= Pow2(b)
    decreases b - a
  {
    if a < b { Pow2Monotone(a, b - 1); }
  }

  /** Every distance used by a round is shorter than the ring. */
  lemma {:induction false} RoundDistance(n: nat, size: nat, i: nat)
    requires IsCeilLg(n, size) && i < size
    ensures Pow2(i) < n
  {
    Pow2Monotone(i, size - 1);
  }

  /** The node heard from in round i: (x + n - 2^i) mod n (see PeerFormulas). */
  function Pred(n: nat, x: nat, i: nat): (r: nat)
    requires x < n && Pow2(i) <= n
    ensures r < n
  {
    if x < Pow2(i) then x + n - Pow2(i) else x - Pow2(i)
  }

  /** The node written to in round i: (x + 2^i) mod n (see PeerFormulas). */
  function Fwd(n: nat, x: nat, i: nat): (r: nat)
    requires x < n && Pow2(i) <= n
    ensures r < n
  {
    if x + Pow2(i) < n then x + Pow2(i) else x + Pow2(i) - n
  }

  lemma {:induction false} WrapOnce(n: nat, a: nat)
    requires 0 < n && a < 2 * n
    ensures a % n == if a < n then a else a - n
  {
    if a >= n {
      var b := a - n;
      assert a == n * 1 + b;
    }
  }

  lemma {:induction false} PeerFormulas(n: nat, x: nat, i: nat)
    requires x < n && 0 < Pow2(i) <= n
    ensures Pred(n, x, i) == (x + n - Pow2(i)) % n
    ensures Fwd(n, x, i) == (x + Pow2(i)) % n
  {
    WrapOnce(n, x + n - Pow2(i));
    WrapOnce(n, x + Pow2(i));
  }

  /** The backward and forward peers of a round are inverse to each other. */
  lemma {:induction false} PredFwd(n: nat, x: nat, i: nat)
    requires x < n && Pow2(i) < n
    ensures Pred(n, Fwd(n, x, i), i) == x && Fwd(n, Pred(n, x, i), i) == x
  {
  }

  /** The nodes whose news has reached x once x has completed rounds 0..k-1. */
  ghost function Reach(n: nat, x: nat, k: nat): (r: set<nat>)
    requires x < n && (k > 0 ==> Pow2(k - 1) < n)
    ensures x in r
    ensures forall m :: m in r ==> m < n
    decreases k
  {
    if k == 0 then {x} else
      Pow2Monotone(if k > 1 then k - 2 else 0, k - 1);
      Reach(n, x, k - 1) + Reach(n, Pred(n, x, k - 1), k - 1)
  }

  lemma {:induction false} ReachMonotone(n: nat, x: nat, a: nat, b: nat)
    requires x < n && a <= b && (b > 0 ==> Pow2(b - 1) < n)
    ensures a > 0 ==> Pow2(a - 1) < n
    ensures Reach(n, x, a) <= Reach(n, x, b)
    decreases b - a
  {
    if a > 0 { Pow2Monotone(a - 1, b - 1); }
    if a < b {
      if b > 1 { Pow2Monotone(b - 2, b - 1); }
      ReachMonotone(n, x, a, b - 1);
    }
  }

  /** The node d places before x on the ring of n nodes. */
  function Back(n: nat, x: nat, d: nat): (r: nat)
    requires x < n && d < n
    ensures r < n
  {
    if d <= x then x - d else x + n - d
  }

  /** After k rounds the news of the 2^k nodes ending at x has arrived. */
  lemma {:induction false} ReachIsWindow(n: nat, x: nat, k: nat, d: nat)
    requires x < n && (k > 0 ==> Pow2(k - 1) < n)
    requires d < Pow2(k) && d < n
    ensures Back(n, x, d) in Reach(n, x, k)
    decreases k
  {
    if k > 0 {
      var h := Pow2(k - 1);
      if k > 1 { Pow2Monotone(k - 2, k - 1); }
      if d < h {
        ReachIsWindow(n, x, k - 1, d);
      } else {
        ReachIsWindow(n, Pred(n, x, k - 1), k - 1, d - h);
      }
    }
  }

  /** ceil(lg n) rounds of dissemination reach every node from every node. */
  lemma {:induction false} ReachIsEveryone(n: nat, x: nat, size: nat, m: nat)
    requires IsCeilLg(n, size) && x < n && m < n
    ensures m in Reach(n, x, size)
  {
    var d := if m <= x then x - m else x + n - m;
    ReachIsWindow(n, x, size, d);
  }

  /** News that reached x, other than its own, came in by some round's message. */
  lemma {:induction false} ReachSplit(n: nat, x: nat, k: nat, m: nat) returns (i: nat)
    requires x < n && (k > 0 ==> Pow2(k - 1) < n)
    requires m in Reach(n, x, k) && m != x
    ensures i < k && Pow2(i) < n && (i > 0 ==> Pow2(i - 1) < n)
    ensures m in Reach(n, Pred(n, x, i), i)
    decreases k
  {
    i := k - 1;
    if k > 1 { Pow2Monotone(k - 2, k - 1); }
    if m in Reach(n, x, k - 1) {
      i := ReachSplit(n, x, k - 1, m);
    }
  }

  /** Builds the forward peer list of a rank as team creation does. */
  method BuildPeers(totalRanks: nat, myrank: nat) returns (fwd: seq<nat>, bwd: seq<nat>)
    requires myrank < totalRanks
    ensures IsCeilLg(totalRanks, |fwd|) && |bwd| == |fwd|
    ensures forall i :: 0 <= i < |fwd| ==> Pow2(i) < totalRanks
    ensures forall i :: 0 <= i < |fwd| ==> fwd[i] == Fwd(totalRanks, myrank, i) && bwd[i] == Pred(totalRanks, myrank, i)
    ensures forall i :: 0 <= i < |fwd| ==> fwd[i] < totalRanks && bwd[i] < totalRanks
    ensures forall i :: 0 <= i < |fwd| ==> Pred(totalRanks, fwd[i], i) == myrank && Fwd(totalRanks, bwd[i], i) == myrank
  {
    fwd, bwd := [], [];
    if totalRanks > 1 {
      var count := 0;
      var i := 1;
      while i < totalRanks
        invariant i == Pow2(count) >= 1
        invariant count > 0 ==> Pow2(count - 1) < totalRanks
        decreases totalRanks - i
      {
        i := i * 2;
        count := count + 1;
      }
      var j := 0;
      var dist := 1;
      while j < count
        invariant 0 <= j <= count && dist == Pow2(j)
        invariant |fwd| == j && |bwd| == j
        invariant forall k :: 0 <= k < j ==> Pow2(k) < totalRanks
        invariant forall k :: 0 <= k < j ==> fwd[k] == Fwd(totalRanks, myrank, k) && bwd[k] == Pred(totalRanks, myrank, k)
      {
        RoundDistance(totalRanks, count, j);
        PeerFormulas(totalRanks, myrank, j);
        fwd := fwd + [(myrank + dist) % totalRanks];
        bwd := bwd + [(myrank + totalRanks - dist) % totalRanks];
        j := j + 1;
        dist := dist * 2;
      }
    }
    forall i | 0 <= i < |fwd|
      ensures Pred(totalRanks, fwd[i], i) == myrank && Fwd(totalRanks, bwd[i], i) == myrank
    {
      PredFwd(totalRanks, myrank, i);
    }
  }
}
