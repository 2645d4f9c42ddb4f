/** Agreement between nodes that leave one episode at different times, and
    progress: no interleaving of the barrier gets stuck. */
module BarrierProgress {
  import opened Dissemination
  import opened BarrierNode
  import opened BarrierSystem

  // ----- agreement --------------------------------------------------------

  /** Announcements are never retracted. */
  lemma {:induction false} NamedOnlyGrows(s: System, ts: seq<Step>, s': System, m: nat)
    requires Inv(s) && Run(s, ts, s') && m < s.n
    ensures WellShaped(s') && s'.n == s.n && s.named[m] <= s'.named[m]
    decreases |ts|
  {
    if ts != [] {
      InvStep(s, ts[0]);
      NamedOnlyGrows(Apply(s, ts[0]), ts[1..], s', m);
    }
  }

  /** All nodes leave an episode with the same verdict, however far apart in time. */
  lemma {:induction false} SameVerdictForAll(s: System, ts: seq<Step>, s': System, x: nat, y: nat)
    requires Reachable(s) && Run(s, ts, s')
    ensures WellShaped(s) && WellShaped(s')
    ensures Enabled(s, LeaveWait(x)) && Enabled(s', LeaveWait(y)) && Ep(s, x) == Ep(s', y) ==>
              Meaning(s.nodes[x].recv[s.nodes[x].phase]) == Meaning(s'.nodes[y].recv[s'.nodes[y].phase])
  {
    ReachableInv(s);
    InvRun(s, ts, s');
    if Enabled(s, LeaveWait(x)) && Enabled(s', LeaveWait(y)) && Ep(s, x) == Ep(s', y) {
      var e := Ep(s, x);
      NamedOnlyGrows(s, ts, s', x);
      forall m | 0 <= m < s.n ensures s.named[m] <= s'.named[m] { NamedOnlyGrows(s, ts, s', m); }
      BarrierConsensus(s, x);
      var v := Meaning(s.nodes[x].recv[s.nodes[x].phase]);
      assert Outcome(s'.named, e, v) by { OutcomePersists(s.named, s'.named, e, v); }
      assert Outcome(s'.named, e, Meaning(s'.nodes[y].recv[s'.nodes[y].phase])) by { InvConsensus(s', y); }
      OutcomeIsUnique(s'.named, e, v, Meaning(s'.nodes[y].recv[s'.nodes[y].phase]));
    }
  }

  predicate SameEntry(log: seq<seq<Notice>>, log': seq<seq<Notice>>, e: nat, m: nat)
    requires m < |log| == |log'|
  {
    1 <= e <= |log[m]| && e <= |log'[m]| && log'[m][e - 1] == log[m][e - 1]
  }

  lemma {:induction false} BoundsPersist(log: seq<seq<Notice>>, log': seq<seq<Notice>>, e: nat, y: Verdict)
    requires |log| == |log'| && forall m :: 0 <= m < |log| ==> SameEntry(log, log', e, m)
    ensures Bounds(log', e, y) <==> Bounds(log, e, y)
  {
    if Bounds(log', e, y) {
      forall m | 0 <= m < |log| && 1 <= e <= |log[m]| ensures Leq(Meaning(log[m][e - 1]), y) { assert SameEntry(log, log', e, m); }
    }
    if Bounds(log, e, y) {
      forall m | 0 <= m < |log'| && 1 <= e <= |log'[m]| ensures Leq(Meaning(log'[m][e - 1]), y) { assert SameEntry(log, log', e, m); }
    }
  }

  lemma {:induction false} OutcomePersists(log: seq<seq<Notice>>, log': seq<seq<Notice>>, e: nat, v: Verdict)
    requires Outcome(log, e, v) && |log| == |log'|
    requires forall m :: 0 <= m < |log| ==> log[m] <= log'[m]
    ensures Outcome(log', e, v)
  {
    forall m | 0 <= m < |log| ensures SameEntry(log, log', e, m) {
      assert Entered(log, e, m);
      assert log[m] <= log'[m];
      assert log'[m][..|log[m]|][e - 1] == log[m][e - 1];
    }
    forall m | 0 <= m < |log'| ensures Entered(log', e, m) { assert SameEntry(log, log', e, m); }
    BoundsPersist(log, log', e, v);
    forall y | Bounds(log', e, y) ensures Leq(v, y) { BoundsPersist(log, log', e, y); }
  }

  /** What a wait reports: a mismatch iff the announcements clash, or the caller
      names a value other than the one agreed on. */
  lemma {:induction false} WaitReport(s: System, x: nat, named: Notice, v: Verdict)
    requires Reachable(s)
    ensures WellShaped(s)
    ensures Enabled(s, LeaveWait(x)) && Outcome(s.named, Ep(s, x), v) ==>
              (WaitMismatch(s.nodes[x], s.size, named) <==> v == Clash || (v.Agreed? && !named.anon && named.value != v.value))
  {
    ReachableInv(s);
    if Enabled(s, LeaveWait(x)) && Outcome(s.named, Ep(s, x), v) {
      BarrierConsensus(s, x);
      OutcomeIsUnique(s.named, Ep(s, x), v, Meaning(s.nodes[x].recv[s.nodes[x].phase]));
    }
  }

  // ----- the result ---------------------------------------------------------

  /** Between a wait and the next notify a node's name is left alone. */
  ghost predicate Between(s: System, x: nat)
    requires WellShaped(s)
  {
    x < s.n && !s.nodes[x].active && !s.nodes[x].entering
  }

  lemma {:induction false} NameStays(s: System, t: Step, x: nat)
    requires Inv(s) && Enabled(s, t) && WellShaped(Apply(s, t)) && Between(s, x) && !(t.BeginNotify? && t.node == x)
    ensures Between(Apply(s, t), x) && Apply(s, t).nodes[x].local == s.nodes[x].local && Ep(Apply(s, t), x) == Ep(s, x)
  {
  }

  lemma {:induction false} NameStaysLong(s: System, ts: seq<Step>, s': System, x: nat)
    requires Inv(s) && Run(s, ts, s') && Between(s, x)
    requires forall k :: 0 <= k < |ts| ==> !(ts[k].BeginNotify? && ts[k].node == x)
    ensures WellShaped(s') && Between(s', x) && s'.nodes[x].local == s.nodes[x].local
    decreases |ts|
  {
    if ts != [] {
      InvStep(s, ts[0]);
      assert !(ts[0].BeginNotify? && ts[0].node == x);
      NameStays(s, ts[0], x);
      NameStaysLong(Apply(s, ts[0]), ts[1..], s', x);
    }
  }

  /** After its wait, until its next notify, a node keeps the outcome of the episode
      it has left, whatever the others do meanwhile. */
  lemma {:induction false} ResultIsKept(s: System, x: nat, ts: seq<Step>, s': System)
    requires Reachable(s) && WellShaped(s) && Enabled(s, LeaveWait(x)) && Run(Apply(s, LeaveWait(x)), ts, s')
    requires forall k :: 0 <= k < |ts| ==> !(ts[k].BeginNotify? && ts[k].node == x)
    ensures WellShaped(s') && x < s'.n && Outcome(s'.named, Ep(s, x), Meaning(s'.nodes[x].local))
  {
    ReachableInv(s);
    InvConsensus(s, x);
    InvStep(s, LeaveWait(x));
    var s1 := Apply(s, LeaveWait(x));
    var v := Meaning(s.nodes[x].recv[s.nodes[x].phase]);
    LeftNode(s, x);
    NameStaysLong(s1, ts, s', x);
    InvRun(s1, ts, s');
    NamedOnlyGrows(s1, ts, s', x);
    forall m | 0 <= m < s.n ensures s1.named[m] <= s'.named[m] { NamedOnlyGrows(s1, ts, s', m); }
    OutcomePersists(s1.named, s'.named, Ep(s, x), v);
  }

  lemma {:induction false} LeftNode(s: System, x: nat)
    requires Inv(s) && Enabled(s, LeaveWait(x))
    ensures var s' := Apply(s, LeaveWait(x));
            WellShaped(s') && Between(s', x) && s'.named == s.named
            && Meaning(s'.nodes[x].local) == Meaning(s.nodes[x].recv[s.nodes[x].phase])
  {
    InvStep(s, LeaveWait(x));
    assert NodeOk(s, x);
  }

  // ----- progress ---------------------------------------------------------

  /** Steps the system takes by itself: handlers, and kicks that consume a message. */
  ghost predicate Internal(s: System, t: Step)
    requires WellShaped(s)
  {
    Enabled(s, t) &&
    (t.AbsorbMsg? || t.MarkMsg? || (t.KickNode? && KickCursor(s.nodes[t.node], s.size) > s.nodes[t.node].step))
  }

  /** Deadlock freedom: while a node waits in an episode that all have entered,
      some internal step is possible. */
  lemma {:induction false} Progress(s: System, x: nat) returns (t: Step)
    requires Inv(s) && x < s.n && s.nodes[x].active && s.nodes[x].step < s.size
    requires forall m :: 0 <= m < s.n ==> Ep(s, m) >= Ep(s, x)
    ensures Internal(s, t)
    decreases s.nodes[x].step
  {
    var i := s.nodes[x].step;
    var e := Ep(s, x);
    var f := From(s, x, i);
    assert Ep(s, f) >= e;
    if Sent(s, x, i) >= e {
      assert NodeOk(s, x) && ChannelOk(s, x, i, e);
      var k := Key(x, i, e);
      if k in s.net {
        t := if s.net[k].merged then MarkMsg(k) else AbsorbMsg(k);
      } else {
        t := KickNode(x);
      }
    } else {
      t := Progress(s, f);
    }
  }

  /** Work left: unconsumed steps, and handler halves still to run. */
  ghost function Work(s: System): nat
    requires WellShaped(s)
  {
    3 * Pending(s, s.n) + Weight(s)
  }

  ghost function Pending(s: System, k: nat): nat
    requires WellShaped(s) && k <= s.n
  {
    if k == 0 then 0 else Pending(s, k - 1) + s.size - Eff(s, k - 1)
  }

  ghost function Unmerged(s: System): set<Key> { set k | k in s.net && !s.net[k].merged }

  ghost function Weight(s: System): nat { |s.net.Keys| + |Unmerged(s)| }

  lemma {:induction false} PendingUpdate(s: System, s': System, x: nat, k: nat)
    requires WellShaped(s) && WellShaped(s') && s'.n == s.n && s'.size == s.size && x < s.n && k <= s.n
    requires forall y :: 0 <= y < s.n && y != x ==> Eff(s', y) == Eff(s, y)
    ensures Pending(s', k) == Pending(s, k) + (if x < k then Eff(s, x) - Eff(s', x) else 0)
  {
    if k > 0 { PendingUpdate(s, s', x, k - 1); }
  }

  /** A kick that consumes d steps sends at most d messages. */
  lemma {:induction false} KickSendCount(s: System, x: nat)
    requires WellShaped(s) && x < s.n
    ensures |KickSends(s, x).Keys| <= KickCursor(s.nodes[x], s.size) - s.nodes[x].step
  {
    var lo, hi := s.nodes[x].step, KickCursor(s.nodes[x], s.size);
    KeysUpTo(s, x, lo, hi, KickSends(s, x).Keys);
  }

  lemma {:induction false} KeysUpTo(s: System, x: nat, lo: nat, hi: nat, keys: set<Key>)
    requires WellShaped(s) && x < s.n && lo <= hi <= s.size
    requires forall k :: k in keys ==> lo < k.step <= hi && k.step < s.size && k == Key(Peer(s, x, k.step), k.step, Ep(s, x))
    ensures |keys| <= hi - lo
    decreases hi - lo
  {
    if lo < hi {
      var rest := set k | k in keys && k.step < hi;
      KeysUpTo(s, x, lo, hi - 1, rest);
      if k :| k in keys && k.step == hi {
        assert keys == rest + {k};
      } else {
        assert keys == rest;
      }
    } else {
      assert keys == {};
    }
  }

  lemma {:induction false} AbsorbWork(s: System, k: Key)
    requires WellShaped(s) && Enabled(s, AbsorbMsg(k)) && WellShaped(Apply(s, AbsorbMsg(k)))
    ensures Work(Apply(s, AbsorbMsg(k))) < Work(s)
  {
    var s' := Apply(s, AbsorbMsg(k));
    PendingUpdate(s, s', k.to, s.n);
    assert s'.net.Keys == s.net.Keys;
    assert Unmerged(s') == Unmerged(s) - {k};
  }

  lemma {:induction false} MarkWork(s: System, k: Key)
    requires WellShaped(s) && Enabled(s, MarkMsg(k)) && WellShaped(Apply(s, MarkMsg(k)))
    ensures Work(Apply(s, MarkMsg(k))) < Work(s)
  {
    var s' := Apply(s, MarkMsg(k));
    PendingUpdate(s, s', k.to, s.n);
    assert s'.net.Keys == s.net.Keys - {k};
    assert Unmerged(s') == Unmerged(s);
  }

  lemma {:induction false} KickWork(s: System, x: nat)
    requires WellShaped(s) && x < s.n && s.nodes[x].active && WellShaped(Apply(s, KickNode(x)))
    requires KickCursor(s.nodes[x], s.size) > s.nodes[x].step
    ensures Work(Apply(s, KickNode(x))) < Work(s)
  {
    var s' := Apply(s, KickNode(x));
    PendingUpdate(s, s', x, s.n);
    KickSendCount(s, x);
    var sends := KickSends(s, x).Keys;
    assert s'.net.Keys == s.net.Keys + sends;
    assert Unmerged(s') <= Unmerged(s) + sends;
    UnionCount(s.net.Keys, sends, s'.net.Keys);
    UnionCount(Unmerged(s), sends, Unmerged(s'));
  }

  /** Every internal step leaves strictly less work, so between client calls the
      system takes at most Work(s) steps. */
  lemma {:induction false} InternalStepDecreases(s: System, t: Step)
    requires Inv(s) && Internal(s, t)
    ensures Inv(Apply(s, t)) && Work(Apply(s, t)) < Work(s)
  {
    InvStep(s, t);
    match t
    case AbsorbMsg(k) => AbsorbWork(s, k);
    case MarkMsg(k) => MarkWork(s, k);
    case KickNode(x) =>
      if !s.nodes[x].active { IdleKick(s, x); }
      KickWork(s, x);
  }

  lemma {:induction false} UnionCount(a: set<Key>, b: set<Key>, c: set<Key>)
    requires c <= a + b
    ensures |c| <= |a| + |b|
  {
    assert c == c * a + (c - a);
    Subset(c * a, a);
    Subset(c - a, b);
  }

  lemma {:induction false} Subset(a: set<Key>, b: set<Key>)
    requires a <= b
    ensures |a| <= |b|
  {
    assert b == a + (b - a);
  }

  ghost predicate InternalRun(s: System, ts: seq<Step>)
    decreases |ts|
  {
    WellShaped(s) && (ts == [] || (Internal(s, ts[0]) && InternalRun(Apply(s, ts[0]), ts[1..])))
  }

  lemma {:induction false} InternalRunsAreShort(s: System, ts: seq<Step>)
    requires Inv(s) && InternalRun(s, ts)
    ensures |ts| <= Work(s)
    decreases |ts|
  {
    if ts != [] {
      InternalStepDecreases(s, ts[0]);
      InternalRunsAreShort(Apply(s, ts[0]), ts[1..]);
    }
  }

  /** A stuck system is a finished one: if no internal step is possible and every
      node has entered the latest episode, every node may leave it. */
  lemma {:induction false} QuiescentMeansDone(s: System, e: nat, x: nat)
    requires Reachable(s)
    ensures WellShaped(s)
    ensures (forall m :: 0 <= m < s.n ==> Ep(s, m) == e) && (forall t :: !Internal(s, t)) && x < s.n ==> Eff(s, x) == s.size
  {
    ReachableInv(s);
    if (forall m :: 0 <= m < s.n ==> Ep(s, m) == e) && (forall t :: !Internal(s, t)) && x < s.n && Eff(s, x) != s.size {
      var t := Progress(s, x);
    }
  }
}
