/** N nodes running the two-phase AMDISSEM barrier over an unordered network,
    episode after episode, and what every interleaving guarantees. */
module BarrierSystem {
  import opened Dissemination
  import opened BarrierNode

  /** History tag of a message: destination, step, and the episode (1, 2, ...)
      in which it was sent.  No transition reads the episode. */
  datatype Key = Key(to: nat, step: nat, episode: nat)

  /** A message in flight.  `merged` is set between the locked part of the
      receive handler and its final write to step_done. */
  datatype Msg = Msg(phase: nat, notice: Notice, merged: bool)

  datatype System = System(
    n: nat,
    size: nat,
    nodes: seq<Node>,
    net: map<Key, Msg>,
    log: seq<seq<Notice>>,  // history: log[m][e-1] is what node m sent in its e-th notify
    named: seq<seq<Notice>> // history: named[m][e-1] is the argument of node m's e-th notify
  )

  datatype Step =
    | BeginNotify(node: nat, notice: Notice)
    | FinishNotify(node: nat)
    | AbsorbMsg(key: Key)
    | MarkMsg(key: Key)
    | KickNode(node: nat)
    | LeaveWait(node: nat)

  ghost predicate WellShaped(s: System) {
    && s.n > 0 && IsCeilLg(s.n, s.size)
    && |s.nodes| == s.n && |s.log| == s.n && |s.named| == s.n
    && (forall x :: 0 <= x < s.n ==> Shaped(s.nodes[x], s.size))
    && (forall k :: k in s.net ==> k.to < s.n && k.step < s.size && s.net[k].phase < 2)
  }

  ghost predicate Enabled(s: System, t: Step)
    requires WellShaped(s)
  {
    match t
    case BeginNotify(x, _) => x < s.n && !s.nodes[x].active && !s.nodes[x].entering
    case FinishNotify(x) => x < s.n && s.nodes[x].entering
    case AbsorbMsg(k) => k in s.net && !s.net[k].merged
    case MarkMsg(k) => k in s.net && s.net[k].merged
    case KickNode(x) => x < s.n
    case LeaveWait(x) => x < s.n && s.nodes[x].active && s.nodes[x].step == s.size
  }

  /** The messages a kick of node x sends: steps step+1 .. cursor, never step `size`. */
  ghost function KickSends(s: System, x: nat): map<Key, Msg>
    requires WellShaped(s) && x < s.n
  {
    var nd := s.nodes[x];
    var c := KickCursor(nd, s.size);
    var notice := KickNotice(nd, s.size);
    map i | nd.step < i <= c && i < s.size ::
      Key(Peer(s, x, i), i, |s.log[x]|) := Msg(nd.phase, notice, false)
  }

  ghost function Peer(s: System, x: nat, i: nat): nat
    requires WellShaped(s) && x < s.n && i < s.size
  {
    RoundDistance(s.n, s.size, i);
    Fwd(s.n, x, i)
  }

  ghost function Apply(s: System, t: Step): System
    requires WellShaped(s) && Enabled(s, t)
  {
    match t
    case BeginNotify(x, notice) =>
      s.(nodes := s.nodes[x := BarrierNode.BeginNotify(s.nodes[x], notice)], named := s.named[x := s.named[x] + [notice]])
    case FinishNotify(x) =>
      var nd := BarrierNode.FinishNotify(s.nodes[x], s.size);
      var log := s.log[x := s.log[x] + [nd.local]];
      var net := if s.size == 0 then s.net
                 else s.net[Key(Peer(s, x, 0), 0, |log[x]|) := Msg(nd.phase, nd.local, false)];
      s.(nodes := s.nodes[x := nd], log := log, net := net)
    case AbsorbMsg(k) =>
      var m := s.net[k];
      s.(nodes := s.nodes[k.to := Absorb(s.nodes[k.to], s.size, m.phase, m.notice)],
         net := s.net[k := m.(merged := true)])
    case MarkMsg(k) =>
      s.(nodes := s.nodes[k.to := MarkDone(s.nodes[k.to], s.size, s.net[k].phase, k.step)],
         net := s.net - {k})
    case KickNode(x) =>
      s.(nodes := s.nodes[x := Kick(s.nodes[x], s.size)], net := s.net + KickSends(s, x))
    case LeaveWait(x) =>
      s.(nodes := s.nodes[x := Leave(s.nodes[x], s.size)])
  }

  ghost predicate Init(s: System) {
    && s.n > 0 && IsCeilLg(s.n, s.size)
    && s.nodes == seq(s.n, i => InitNode(s.size))
    && s.net == map[] && s.log == seq(s.n, i => []) && s.named == seq(s.n, i => [])
  }

  // ----- the inductive invariant ------------------------------------------

  /** The episode of node x: how many notifies it has completed. */
  ghost function Ep(s: System, x: nat): nat
    requires WellShaped(s) && x < s.n
  {
    |s.log[x]|
  }

  /** Steps of its own episode that node x has completed. */
  ghost function Eff(s: System, x: nat): (r: nat)
    requires WellShaped(s) && x < s.n
    ensures r <= s.size && (r > 0 ==> Pow2(r - 1) < s.n)
  {
    var r := if s.nodes[x].active then s.nodes[x].step else s.size;
    assert r > 0 ==> Pow2(r - 1) < s.n by { if r > 0 { RoundDistance(s.n, s.size, r - 1); } }
    r
  }

  ghost predicate NodeOk(s: System, x: nat)
    requires WellShaped(s) && x < s.n
  {
    var nd := s.nodes[x];
    && nd.phase == Ep(s, x) % 2
    && (nd.active ==> Ep(s, x) >= 1 && !nd.entering && nd.local == s.log[x][Ep(s, x) - 1])
    && (nd.entering ==> nd.step == 0)
    && (!nd.active ==> Meaning(nd.recv[nd.phase]) == Open)
    && (!nd.active && !nd.entering && Ep(s, x) > 0 ==> nd.step == s.size)
  }

  /** Node x has news of everyone its completed rounds reach. */
  ghost predicate Knows(s: System, x: nat)
    requires WellShaped(s) && x < s.n
  {
    forall m :: m in Reach(s.n, x, Eff(s, x)) ==> Ep(s, m) >= Ep(s, x)
  }

  /** Nobody is more than one episode ahead of anybody. */
  ghost predicate Close(s: System) {
    WellShaped(s) && forall x, y :: 0 <= x < s.n && 0 <= y < s.n ==> Ep(s, x) <= Ep(s, y) + 1
  }

  /** The node whose step-i messages node x receives. */
  ghost function From(s: System, x: nat, i: nat): (r: nat)
    requires WellShaped(s) && x < s.n && i < s.size
    ensures r < s.n && Pow2(i) < s.n && (i > 0 ==> Pow2(i - 1) < s.n)
  {
    RoundDistance(s.n, s.size, i);
    if i > 0 then RoundDistance(s.n, s.size, i - 1); Pred(s.n, x, i) else Pred(s.n, x, i)
  }

  /** Episodes whose step-i message node x has consumed: 1..Taken. */
  ghost function Taken(s: System, x: nat, i: nat): int
    requires WellShaped(s) && x < s.n && i < s.size
  {
    if i < Eff(s, x) then Ep(s, x) else Ep(s, x) - 1
  }

  /** Episodes whose step-i message to node x has been sent: 1..Sent. */
  ghost function Sent(s: System, x: nat, i: nat): int
    requires WellShaped(s) && x < s.n && i < s.size
  {
    var f := From(s, x, i);
    if i <= Eff(s, f) then Ep(s, f) else Ep(s, f) - 1
  }

  /** The channel into node x for step i: the pending episodes are exactly those
      in flight or already marked in the slot of their phase. */
  ghost predicate ChannelOk(s: System, x: nat, i: nat, e: nat)
    requires WellShaped(s) && x < s.n && i < s.size
  {
    var k := Key(x, i, e);
    && (k in s.net ==> Taken(s, x, i) < e <= Sent(s, x, i) && s.net[k].phase == e % 2)
    && (Taken(s, x, i) < e <= Sent(s, x, i) ==> (k in s.net <==> !s.nodes[x].done[e % 2][i]))
  }

  ghost predicate SlotOk(s: System, x: nat, i: nat, p: nat)
    requires WellShaped(s) && x < s.n && i < s.size && p < 2
  {
    var t := Taken(s, x, i);
    && t <= Sent(s, x, i)
    && (s.nodes[x].done[p][i] ==>
          || (t + 1 <= Sent(s, x, i) && (t + 1) % 2 == p)
          || (t + 2 <= Sent(s, x, i) && (t + 2) % 2 == p))
  }

  /** v is at least what every node of `who` announced for episode e. */
  ghost predicate Covers(log: seq<seq<Notice>>, who: set<nat>, e: nat, v: Verdict) {
    forall m :: m in who ==> m < |log| && 1 <= e <= |log[m]| && Leq(Meaning(log[m][e - 1]), v)
  }

  /** y bounds everything announced so far for episode e. */
  ghost predicate Bounds(log: seq<seq<Notice>>, e: nat, y: Verdict) {
    forall m :: 0 <= m < |log| && 1 <= e <= |log[m]| ==> Leq(Meaning(log[m][e - 1]), y)
  }

  /** v says no more than the announcements of episode e imply. */
  ghost predicate Below(log: seq<seq<Notice>>, e: nat, v: Verdict) {
    forall y :: Bounds(log, e, y) ==> Leq(v, y)
  }

  ghost predicate MsgOk(s: System, k: Key)
    requires WellShaped(s) && k in s.net
  {
    && Covers(s.log, Reach(s.n, From(s, k.to, k.step), k.step), k.episode, Meaning(s.net[k].notice))
    && Below(s.log, k.episode, Meaning(s.net[k].notice))
  }

  /** What has been absorbed of episode e's step-i message is in the slot. */
  ghost predicate AbsorbedOk(s: System, x: nat, i: nat, e: nat)
    requires WellShaped(s) && x < s.n && i < s.size
  {
    var k := Key(x, i, e);
    Taken(s, x, i) < e <= Sent(s, x, i) && (k !in s.net || s.net[k].merged) ==>
      Covers(s.log, Reach(s.n, From(s, x, i), i), e, Meaning(s.nodes[x].recv[e % 2]))
  }

  /** The slot of the next episode is justified. */
  ghost predicate NextOk(s: System, x: nat)
    requires WellShaped(s) && x < s.n
  {
    Below(s.log, Ep(s, x) + 1, Meaning(s.nodes[x].recv[1 - s.nodes[x].phase]))
  }

  /** The slot of the current episode is justified and, once something has been
      forwarded, covers everyone heard from. */
  ghost predicate CurrentOk(s: System, x: nat)
    requires WellShaped(s) && x < s.n
  {
    var nd := s.nodes[x];
    nd.active && Ep(s, x) >= 1 ==>
      && Below(s.log, Ep(s, x), Meaning(nd.recv[nd.phase]))
      && (nd.step > 0 || s.size == 0 ==>
            Covers(s.log, Reach(s.n, x, Eff(s, x)), Ep(s, x), Meaning(nd.recv[nd.phase])))
  }

  ghost predicate RecvOk(s: System, x: nat)
    requires WellShaped(s) && x < s.n
  {
    NextOk(s, x) && CurrentOk(s, x)
  }

  ghost predicate Flow(s: System) {
    && WellShaped(s)
    && (forall x :: 0 <= x < s.n ==> NodeOk(s, x) && Knows(s, x))
    && Close(s)
    && (forall x, i, e :: 0 <= x < s.n && 0 <= i < s.size && 0 <= e ==> ChannelOk(s, x, i, e))
    && (forall x, i, p :: 0 <= x < s.n && 0 <= i < s.size && 0 <= p < 2 ==> SlotOk(s, x, i, p))
  }

  ghost predicate Values(s: System) {
    && WellShaped(s)
    && (forall k :: k in s.net ==> MsgOk(s, k))
    && (forall x, i, e :: 0 <= x < s.n && 0 <= i < s.size && 0 <= e ==> AbsorbedOk(s, x, i, e))
    && (forall x :: 0 <= x < s.n ==> RecvOk(s, x))
  }

  ghost predicate Sound(s: System) { Flow(s) && Values(s) }

  // ----- facts read off the invariant -------------------------------------

  lemma {:induction false} FromPeer(s: System, x: nat, i: nat)
    requires WellShaped(s) && x < s.n && i < s.size
    ensures From(s, Peer(s, x, i), i) == x && Peer(s, From(s, x, i), i) == x && Peer(s, x, i) < s.n
  {
    RoundDistance(s.n, s.size, i);
    PredFwd(s.n, x, i);
  }

  /** A sender is at most two messages ahead of a receiver on one channel. */
  lemma {:induction false} ChannelWidth(s: System, x: nat, i: nat)
    requires Flow(s) && x < s.n && i < s.size
    ensures Sent(s, x, i) <= Taken(s, x, i) + 2
    ensures Sent(s, x, i) <= Ep(s, x) + 1
  {
    var f := From(s, x, i);
    assert Ep(s, f) <= Ep(s, x) + 1;
  }

  /** Outside an episode a kick finds nothing to do, even halfway through notify. */
  lemma {:induction false} IdleKick(s: System, x: nat)
    requires Flow(s) && x < s.n && !s.nodes[x].active
    ensures KickCursor(s.nodes[x], s.size) == s.nodes[x].step
  {
    var nd := s.nodes[x];
    assert NodeOk(s, x);
    if nd.step < s.size {
      ChannelWidth(s, x, nd.step);
      assert SlotOk(s, x, nd.step, nd.phase);
      assert !nd.done[nd.phase][nd.step];
    }
  }

  /** A marked step of the current phase is a message of the current episode. */
  lemma {:induction false} MarkedIsCurrent(s: System, x: nat, i: nat)
    requires Flow(s) && x < s.n && i < s.size && s.nodes[x].active && s.nodes[x].step <= i
    requires s.nodes[x].done[s.nodes[x].phase][i]
    ensures Sent(s, x, i) >= Ep(s, x) && Taken(s, x, i) == Ep(s, x) - 1 && Key(x, i, Ep(s, x)) !in s.net
  {
    ChannelWidth(s, x, i);
    assert NodeOk(s, x);
    assert SlotOk(s, x, i, s.nodes[x].phase);
    assert ChannelOk(s, x, i, Ep(s, x));
  }

  /** If the step-i message of x's episode has been sent to x, then everyone the
      sender had heard from by then has entered that episode. */
  lemma {:induction false} SenderKnows(s: System, x: nat, i: nat, m: nat)
    requires Flow(s) && x < s.n && i < s.size
    requires Sent(s, x, i) >= Ep(s, x)
    requires m in Reach(s.n, From(s, x, i), i)
    ensures Ep(s, m) >= Ep(s, x)
  {
    var f := From(s, x, i);
    if i <= Eff(s, f) && Ep(s, f) == Ep(s, x) {
      ReachMonotone(s.n, f, i, Eff(s, f));
      assert Knows(s, f);
    } else {
      assert Ep(s, f) >= Ep(s, x) + 1;
      assert Ep(s, f) <= Ep(s, m) + 1;
    }
  }

  // ----- kick -------------------------------------------------------------

  lemma {:induction false} KickKnows(s: System, x: nat)
    requires Flow(s) && x < s.n && s.nodes[x].active
    ensures var c := KickCursor(s.nodes[x], s.size);
            (c > 0 ==> Pow2(c - 1) < s.n) &&
            forall m :: m in Reach(s.n, x, c) ==> Ep(s, m) >= Ep(s, x)
  {
    var nd := s.nodes[x];
    var c := KickCursor(nd, s.size);
    if c > 0 { RoundDistance(s.n, s.size, c - 1); }
    forall m | m in Reach(s.n, x, c) ensures Ep(s, m) >= Ep(s, x) {
      if m != x {
        var i := ReachSplit(s.n, x, c, m);
        if i < nd.step {
          RoundDistance(s.n, s.size, nd.step - 1);
          ReachStep(s.n, x, i, nd.step, m);
          assert Knows(s, x);
        } else {
          MarkedIsCurrent(s, x, i);
          SenderKnows(s, x, i, m);
        }
      }
    }
  }

  /** What came in at round i is in the reach of any later round. */
  lemma {:induction false} ReachStep(n: nat, x: nat, i: nat, k: nat, m: nat)
    requires x < n && i < k && Pow2(k - 1) < n && Pow2(i) < n && (i > 0 ==> Pow2(i - 1) < n)
    requires m in Reach(n, Pred(n, x, i), i)
    ensures m in Reach(n, x, k)
  {
    assert m in Reach(n, x, i + 1);
    ReachMonotone(n, x, i + 1, k);
  }

  lemma {:induction false} KickShape(s: System, x: nat)
    requires WellShaped(s) && x < s.n
    ensures WellShaped(Apply(s, KickNode(x)))
  {
    var s' := Apply(s, KickNode(x));
    forall k | k in s'.net ensures k.to < s.n && k.step < s.size && s'.net[k].phase < 2 {
      if k in KickSends(s, x) { FromPeer(s, x, k.step); }
    }
  }

  lemma {:induction false} KickNothing(s: System, x: nat)
    requires WellShaped(s) && x < s.n && KickCursor(s.nodes[x], s.size) == s.nodes[x].step
    ensures Apply(s, KickNode(x)) == s
  {
    assert KickSends(s, x) == map[];
  }

  /** Which messages are in flight after a kick. */
  lemma {:induction false} KickNet(s: System, x: nat, y: nat, j: nat, e: nat)
    requires WellShaped(s) && x < s.n && y < s.n && j < s.size
    ensures var c := KickCursor(s.nodes[x], s.size);
            var added := From(s, y, j) == x && s.nodes[x].step < j <= c && e == Ep(s, x);
            && (Key(y, j, e) in KickSends(s, x) <==> added)
            && (added ==> KickSends(s, x)[Key(y, j, e)] == Msg(s.nodes[x].phase, KickNotice(s.nodes[x], s.size), false))
  {
    FromPeer(s, y, j);
    FromPeer(s, x, j);
  }

  lemma {:induction false} FlowKick(s: System, x: nat)
    requires Flow(s) && x < s.n
    ensures Flow(Apply(s, KickNode(x)))
  {
    var s' := Apply(s, KickNode(x));
    KickShape(s, x);
    var nd := s.nodes[x];
    var c := KickCursor(nd, s.size);
    if c == nd.step {
      KickNothing(s, x);
      return;
    }
    if !nd.active { IdleKick(s, x); assert false; }
    KickKnows(s, x);
    forall y | 0 <= y < s.n ensures NodeOk(s', y) && Knows(s', y) {
      assert NodeOk(s, y) && Knows(s, y);
      KickNodeOk(s, x, y);
      KickKnowsStill(s, x, y);
    }
    forall a, b | 0 <= a < s.n && 0 <= b < s.n ensures Ep(s', a) <= Ep(s', b) + 1 {
      assert Ep(s, a) <= Ep(s, b) + 1;
    }
    forall y, j, e: nat | 0 <= y < s.n && 0 <= j < s.size ensures ChannelOk(s', y, j, e) {
      KickChannel(s, x, y, j, e);
    }
    forall y, j, p | 0 <= y < s.n && 0 <= j < s.size && 0 <= p < 2 ensures SlotOk(s', y, j, p) {
      KickSlot(s, x, y, j, p);
    }
  }

  /** A kick changes nobody's episode and only its own node's progress. */
  lemma {:induction false} KickProgress(s: System, x: nat, y: nat)
    requires WellShaped(s) && x < s.n && y < s.n && s.nodes[x].active
    ensures var s' := Apply(s, KickNode(x));
            && WellShaped(s') && Ep(s', y) == Ep(s, y)
            && Eff(s', y) == (if y == x then KickCursor(s.nodes[x], s.size) else Eff(s, y))
            && (y != x ==> s'.nodes[y] == s.nodes[y])
  {
    KickShape(s, x);
  }

  lemma {:induction false} KickNodeOk(s: System, x: nat, y: nat)
    requires WellShaped(s) && x < s.n && y < s.n && s.nodes[x].active && NodeOk(s, y)
    ensures WellShaped(Apply(s, KickNode(x))) && NodeOk(Apply(s, KickNode(x)), y)
  {
    KickProgress(s, x, y);
  }

  lemma {:induction false} KickKnowsStill(s: System, x: nat, y: nat)
    requires WellShaped(s) && x < s.n && y < s.n && s.nodes[x].active && Knows(s, y)
    requires RoundOk(s, KickCursor(s.nodes[x], s.size))
    requires forall m :: m in Reach(s.n, x, KickCursor(s.nodes[x], s.size)) ==> Ep(s, m) >= Ep(s, x)
    ensures WellShaped(Apply(s, KickNode(x))) && Knows(Apply(s, KickNode(x)), y)
  {
    KickProgress(s, x, y);
    var s' := Apply(s, KickNode(x));
    forall m | m in Reach(s'.n, y, Eff(s', y)) ensures Ep(s', m) >= Ep(s', y) {
      KickProgress(s, x, m);
    }
  }

  /** How a kick moves the channel counters. */
  lemma {:induction false} KickCounts(s: System, x: nat, y: nat, j: nat)
    requires WellShaped(s) && x < s.n && y < s.n && j < s.size && s.nodes[x].active
    ensures var s' := Apply(s, KickNode(x));
            var c := KickCursor(s.nodes[x], s.size);
            && WellShaped(s')
            && Taken(s', y, j) == (if y == x && s.nodes[x].step <= j < c then Ep(s, x) else Taken(s, y, j))
            && Sent(s', y, j) == (if From(s, y, j) == x && s.nodes[x].step < j <= c then Ep(s, x) else Sent(s, y, j))
  {
    KickShape(s, x);
  }

  lemma {:induction false} KickChannel(s: System, x: nat, y: nat, j: nat, e: nat)
    requires Flow(s) && x < s.n && y < s.n && j < s.size && s.nodes[x].active
    ensures WellShaped(Apply(s, KickNode(x))) && ChannelOk(Apply(s, KickNode(x)), y, j, e)
  {
    if y == x { KickChannelOwn(s, x, j, e); } else { KickChannelTo(s, x, y, j, e); }
  }

  lemma {:induction false} KickChannelOwn(s: System, x: nat, j: nat, e: nat)
    requires Flow(s) && x < s.n && j < s.size && s.nodes[x].active
    ensures WellShaped(Apply(s, KickNode(x))) && ChannelOk(Apply(s, KickNode(x)), x, j, e)
  {
    assert NodeOk(s, x) && ChannelOk(s, x, j, e);
    KickCounts(s, x, x, j);
    KickNet(s, x, x, j, e);
    RoundDistance(s.n, s.size, j);
    assert From(s, x, j) != x;
    if s.nodes[x].step <= j < KickCursor(s.nodes[x], s.size) { MarkedIsCurrent(s, x, j); ChannelWidth(s, x, j); }
    KickChannelSelf(s, x, j, e);
  }

  lemma {:induction false} KickChannelTo(s: System, x: nat, y: nat, j: nat, e: nat)
    requires Flow(s) && x < s.n && y < s.n && y != x && j < s.size && s.nodes[x].active
    ensures WellShaped(Apply(s, KickNode(x))) && ChannelOk(Apply(s, KickNode(x)), y, j, e)
  {
    var nd := s.nodes[x];
    assert NodeOk(s, x) && ChannelOk(s, y, j, e);
    if From(s, y, j) == x && nd.step < j <= KickCursor(nd, s.size) {
      assert SlotOk(s, y, j, nd.phase);
      assert Ep(s, x) <= Ep(s, y) + 1;
      assert !s.nodes[y].done[nd.phase][j];
      assert Sent(s, y, j) == Ep(s, x) - 1;
    }
    KickChannelOther(s, x, y, j, e);
  }

  lemma {:induction false} KickChannelOther(s: System, x: nat, y: nat, j: nat, e: nat)
    requires WellShaped(s) && x < s.n && y < s.n && y != x && j < s.size && s.nodes[x].active && s.nodes[x].phase == Ep(s, x) % 2
    requires ChannelOk(s, y, j, e)
    requires From(s, y, j) == x && s.nodes[x].step < j <= KickCursor(s.nodes[x], s.size) ==>
      Sent(s, y, j) == Ep(s, x) - 1 && !s.nodes[y].done[s.nodes[x].phase][j] && Taken(s, y, j) <= Sent(s, y, j)
    ensures WellShaped(Apply(s, KickNode(x))) && ChannelOk(Apply(s, KickNode(x)), y, j, e)
  {
    KickCounts(s, x, y, j);
    KickNet(s, x, y, j, e);
  }

  lemma {:induction false} KickChannelSelf(s: System, x: nat, j: nat, e: nat)
    requires WellShaped(s) && x < s.n && j < s.size && s.nodes[x].active && s.nodes[x].phase == Ep(s, x) % 2
    requires ChannelOk(s, x, j, e) && From(s, x, j) != x
    requires Key(x, j, e) !in KickSends(s, x)
    requires WellShaped(Apply(s, KickNode(x)))
    requires s.nodes[x].step <= j < KickCursor(s.nodes[x], s.size) ==>
      Taken(s, x, j) == Ep(s, x) - 1 && Ep(s, x) <= Sent(s, x, j) <= Ep(s, x) + 1 && Key(x, j, Ep(s, x)) !in s.net
    ensures ChannelOk(Apply(s, KickNode(x)), x, j, e)
  {
    KickCounts(s, x, x, j);
    KickMarks(s, x, x, j, e % 2);
    var s' := Apply(s, KickNode(x));
    assert Key(x, j, e) in s'.net <==> Key(x, j, e) in s.net;
    assert Key(x, j, e) in s.net ==> s'.net[Key(x, j, e)] == s.net[Key(x, j, e)];
  }

  lemma {:induction false} KickSlot(s: System, x: nat, y: nat, j: nat, p: nat)
    requires Flow(s) && x < s.n && y < s.n && j < s.size && p < 2 && s.nodes[x].active
    ensures WellShaped(Apply(s, KickNode(x))) && SlotOk(Apply(s, KickNode(x)), y, j, p)
  {
    assert NodeOk(s, x);
    assert SlotOk(s, y, j, p);
    ChannelWidth(s, y, j);
    if y == x && s.nodes[x].step <= j < KickCursor(s.nodes[x], s.size) { MarkedIsCurrent(s, x, j); }
    KickSlotFrame(s, x, y, j, p);
  }

  lemma {:induction false} KickSlotFrame(s: System, x: nat, y: nat, j: nat, p: nat)
    requires WellShaped(s) && x < s.n && y < s.n && j < s.size && p < 2 && s.nodes[x].active && NodeOk(s, x)
    requires SlotOk(s, y, j, p) && Sent(s, y, j) <= Taken(s, y, j) + 2
    requires y == x && s.nodes[x].step <= j < KickCursor(s.nodes[x], s.size) ==> Sent(s, x, j) >= Ep(s, x) && Taken(s, x, j) == Ep(s, x) - 1
    ensures WellShaped(Apply(s, KickNode(x))) && SlotOk(Apply(s, KickNode(x)), y, j, p)
  {
    KickCounts(s, x, y, j);
    KickMarks(s, x, y, j, p);
  }

  /** A kick clears the marks it consumes and no others. */
  lemma {:induction false} KickMarks(s: System, x: nat, y: nat, j: nat, p: nat)
    requires WellShaped(s) && x < s.n && y < s.n && j < s.size && p < 2
    ensures WellShaped(Apply(s, KickNode(x)))
    ensures Apply(s, KickNode(x)).nodes[y].done[p][j]
            == (s.nodes[y].done[p][j] && !(y == x && p == s.nodes[x].phase && s.nodes[x].step <= j < KickCursor(s.nodes[x], s.size)))
  {
    KickShape(s, x);
  }

  /** What a kick forwards covers everyone the completed rounds reach. */
  lemma {:induction false} KickCovers(s: System, x: nat)
    requires Sound(s) && x < s.n && s.nodes[x].active
    ensures var c := KickCursor(s.nodes[x], s.size);
            (c > 0 ==> Pow2(c - 1) < s.n) &&
            (c > s.nodes[x].step ==> Covers(s.log, Reach(s.n, x, c), Ep(s, x), Meaning(KickNotice(s.nodes[x], s.size))))
  {
    var nd := s.nodes[x];
    var c := KickCursor(nd, s.size);
    var e := Ep(s, x);
    var v := Meaning(KickNotice(nd, s.size));
    if c > 0 { RoundDistance(s.n, s.size, c - 1); }
    assert NodeOk(s, x) && RecvOk(s, x);
    if c > nd.step {
      forall m | m in Reach(s.n, x, c) ensures m < |s.log| && 1 <= e <= |s.log[m]| && Leq(Meaning(s.log[m][e - 1]), v) {
        KickCoversOne(s, x, m);
      }
    }
  }

  /** What x already had, or has just found, says at least what m announced. */
  lemma {:induction false} KickCoversOne(s: System, x: nat, m: nat)
    requires Sound(s) && x < s.n && s.nodes[x].active && KickCursor(s.nodes[x], s.size) > s.nodes[x].step
    requires Pow2(KickCursor(s.nodes[x], s.size) - 1) < s.n && m in Reach(s.n, x, KickCursor(s.nodes[x], s.size))
    ensures m < |s.log| && 1 <= Ep(s, x) <= |s.log[m]|
    ensures Leq(Meaning(s.log[m][Ep(s, x) - 1]), Meaning(KickNotice(s.nodes[x], s.size)))
  {
    var nd := s.nodes[x];
    KickNoticeCovers(nd, s.size);
    assert NodeOk(s, x);
    if m != x {
      var i := ReachSplit(s.n, x, KickCursor(nd, s.size), m);
      if i < nd.step {
        RoundDistance(s.n, s.size, nd.step - 1);
        ReachStep(s.n, x, i, nd.step, m);
        HadBefore(s, x, m);
      } else {
        FoundNow(s, x, i, m);
      }
    } else if nd.step > 0 {
      RoundDistance(s.n, s.size, nd.step - 1);
      SelfReach(s.n, x, nd.step);
      HadBefore(s, x, x);
    }
  }

  lemma {:induction false} HadBefore(s: System, x: nat, m: nat)
    requires Sound(s) && x < s.n && s.nodes[x].active && s.nodes[x].step > 0 && m in Reach(s.n, x, Eff(s, x))
    ensures m < |s.log| && 1 <= Ep(s, x) <= |s.log[m]|
    ensures Leq(Meaning(s.log[m][Ep(s, x) - 1]), Meaning(s.nodes[x].recv[s.nodes[x].phase]))
  {
    assert NodeOk(s, x) && RecvOk(s, x);
    assert Covers(s.log, Reach(s.n, x, Eff(s, x)), Ep(s, x), Meaning(s.nodes[x].recv[s.nodes[x].phase]));
  }

  lemma {:induction false} FoundNow(s: System, x: nat, i: nat, m: nat)
    requires Sound(s) && x < s.n && i < s.size && s.nodes[x].active && s.nodes[x].step <= i && s.nodes[x].done[s.nodes[x].phase][i]
    requires m in Reach(s.n, From(s, x, i), i)
    ensures m < |s.log| && 1 <= Ep(s, x) <= |s.log[m]|
    ensures Leq(Meaning(s.log[m][Ep(s, x) - 1]), Meaning(s.nodes[x].recv[s.nodes[x].phase]))
  {
    MarkedIsCurrent(s, x, i);
    assert NodeOk(s, x) && AbsorbedOk(s, x, i, Ep(s, x));
    assert Covers(s.log, Reach(s.n, From(s, x, i), i), Ep(s, x), Meaning(s.nodes[x].recv[Ep(s, x) % 2]));
  }

  lemma {:induction false} SelfReach(n: nat, x: nat, k: nat)
    requires x < n && (k > 0 ==> Pow2(k - 1) < n)
    ensures x in Reach(n, x, k)
  {
    ReachMonotone(n, x, 0, k);
  }

  /** A forwarded notice says at least what was received, and at the first step at
      least the node's own name. */
  lemma {:induction false} KickNoticeCovers(nd: Node, size: nat)
    requires BarrierNode.Shaped(nd, size)
    ensures Leq(Meaning(nd.recv[nd.phase]), Meaning(KickNotice(nd, size)))
    ensures nd.step == 0 ==> Leq(Meaning(nd.local), Meaning(KickNotice(nd, size)))
    ensures forall w :: Leq(w, Meaning(nd.recv[nd.phase])) ==> Leq(w, Meaning(KickNotice(nd, size)))
  {
  }

  lemma {:induction false} ValuesKick(s: System, x: nat)
    requires Sound(s) && x < s.n
    ensures WellShaped(Apply(s, KickNode(x))) && Values(Apply(s, KickNode(x)))
  {
    var s' := Apply(s, KickNode(x));
    KickShape(s, x);
    var nd := s.nodes[x];
    var c := KickCursor(nd, s.size);
    if c == nd.step {
      KickNothing(s, x);
      return;
    }
    if !nd.active { IdleKick(s, x); assert false; }
    ValuesKickBusy(s, x);
  }

  lemma {:induction false} ValuesKickBusy(s: System, x: nat)
    requires Sound(s) && x < s.n && s.nodes[x].active && KickCursor(s.nodes[x], s.size) > s.nodes[x].step
    ensures WellShaped(Apply(s, KickNode(x))) && Values(Apply(s, KickNode(x)))
  {
    var s' := Apply(s, KickNode(x));
    KickShape(s, x);
    KickCovers(s, x);
    assert NodeOk(s, x) && RecvOk(s, x);
    KickBelow(s, x);
    forall k | k in s'.net ensures MsgOk(s', k) {
      if k in KickSends(s, x) { KickMsg(s, x, k); }
      else { assert MsgOk(s, k); MsgFrame(s, s', k); }
    }
    forall y, j, e | 0 <= y < s.n && 0 <= j < s.size && 0 <= e ensures AbsorbedOk(s', y, j, e) {
      KickAbsorbed(s, x, y, j, e);
    }
    forall y | 0 <= y < s.n ensures RecvOk(s', y) {
      assert RecvOk(s, y);
      KickRecv(s, x, y);
    }
  }

  lemma {:induction false} KickRecv(s: System, x: nat, y: nat)
    requires WellShaped(s) && x < s.n && y < s.n && NodeOk(s, x) && RecvOk(s, x) && RecvOk(s, y) && s.nodes[x].active
    requires KickCursor(s.nodes[x], s.size) > s.nodes[x].step
    requires RoundOk(s, KickCursor(s.nodes[x], s.size))
    requires Covers(s.log, Reach(s.n, x, KickCursor(s.nodes[x], s.size)), Ep(s, x), Meaning(KickNotice(s.nodes[x], s.size)))
    ensures WellShaped(Apply(s, KickNode(x))) && RecvOk(Apply(s, KickNode(x)), y)
  {
    KickShape(s, x);
    KickBelow(s, x);
  }

  ghost predicate RoundOk(s: System, c: nat) { c > 0 ==> Pow2(c - 1) < s.n }

  /** A kick forwards nothing that was not announced. */
  lemma {:induction false} KickBelow(s: System, x: nat)
    requires WellShaped(s) && x < s.n && NodeOk(s, x) && RecvOk(s, x) && s.nodes[x].active
    ensures Below(s.log, Ep(s, x), Meaning(KickNotice(s.nodes[x], s.size)))
  {
  }

  lemma {:induction false} KickMsg(s: System, x: nat, k: Key)
    requires WellShaped(s) && x < s.n && RoundOk(s, KickCursor(s.nodes[x], s.size))
    requires Covers(s.log, Reach(s.n, x, KickCursor(s.nodes[x], s.size)), Ep(s, x), Meaning(KickNotice(s.nodes[x], s.size)))
    requires Below(s.log, Ep(s, x), Meaning(KickNotice(s.nodes[x], s.size)))
    requires k in KickSends(s, x)
    ensures WellShaped(Apply(s, KickNode(x))) && k in Apply(s, KickNode(x)).net && MsgOk(Apply(s, KickNode(x)), k)
  {
    KickSent(s, x, k);
    ForwardedCovers(s, x, k.step);
    MsgIsOk(Apply(s, KickNode(x)), k, x);
  }

  /** What covers those heard from in all rounds covers those of fewer rounds. */
  lemma {:induction false} ForwardedCovers(s: System, x: nat, i: nat)
    requires WellShaped(s) && x < s.n && i <= KickCursor(s.nodes[x], s.size) && RoundOk(s, KickCursor(s.nodes[x], s.size))
    requires Covers(s.log, Reach(s.n, x, KickCursor(s.nodes[x], s.size)), Ep(s, x), Meaning(KickNotice(s.nodes[x], s.size)))
    ensures RoundOk(s, i) && Covers(s.log, Reach(s.n, x, i), Ep(s, x), Meaning(KickNotice(s.nodes[x], s.size)))
  {
    var c := KickCursor(s.nodes[x], s.size);
    ReachMonotone(s.n, x, i, c);
    CoversFewer(s.log, Reach(s.n, x, c), Reach(s.n, x, i), Ep(s, x), Meaning(KickNotice(s.nodes[x], s.size)));
  }

  lemma {:induction false} MsgIsOk(s: System, k: Key, x: nat)
    requires WellShaped(s) && k in s.net && k.to < s.n && k.step < s.size && From(s, k.to, k.step) == x && RoundOk(s, k.step)
    requires Covers(s.log, Reach(s.n, x, k.step), k.episode, Meaning(s.net[k].notice))
    requires Below(s.log, k.episode, Meaning(s.net[k].notice))
    ensures MsgOk(s, k)
  {
  }

  lemma {:induction false} CoversFewer(log: seq<seq<Notice>>, who: set<nat>, fewer: set<nat>, e: nat, v: Verdict)
    requires Covers(log, who, e, v) && fewer <= who
    ensures Covers(log, fewer, e, v)
  {
  }

  lemma {:induction false} KickSent(s: System, x: nat, k: Key)
    requires WellShaped(s) && x < s.n && k in KickSends(s, x)
    ensures WellShaped(Apply(s, KickNode(x))) && k in Apply(s, KickNode(x)).net && k.to < s.n && k.step < s.size
    ensures From(Apply(s, KickNode(x)), k.to, k.step) == x && k.episode == Ep(s, x) && k.step <= KickCursor(s.nodes[x], s.size)
    ensures Apply(s, KickNode(x)).net[k].notice == KickNotice(s.nodes[x], s.size)
  {
    KickShape(s, x);
    FromPeer(s, x, k.step);
    KickNet(s, x, k.to, k.step, k.episode);
  }

  lemma {:induction false} KickAbsorbed(s: System, x: nat, y: nat, j: nat, e: nat)
    requires WellShaped(s) && x < s.n && s.nodes[x].active && NodeOk(s, x) && y < s.n && j < s.size && AbsorbedOk(s, y, j, e)
    ensures WellShaped(Apply(s, KickNode(x))) && AbsorbedOk(Apply(s, KickNode(x)), y, j, e)
  {
    KickCounts(s, x, y, j);
    KickNet(s, x, y, j, e);
    KickSlotsGrow(s, x, y, e % 2, Reach(s.n, From(s, y, j), j), e);
  }

  /** A kick takes nothing away from what a slot covers. */
  lemma {:induction false} KickSlotsGrow(s: System, x: nat, y: nat, p: nat, who: set<nat>, e: nat)
    requires WellShaped(s) && x < s.n && y < s.n && p < 2
    ensures WellShaped(Apply(s, KickNode(x)))
    ensures Covers(s.log, who, e, Meaning(s.nodes[y].recv[p])) ==>
            Covers(s.log, who, e, Meaning(Apply(s, KickNode(x)).nodes[y].recv[p]))
  {
    KickShape(s, x);
    KickNoticeCovers(s.nodes[x], s.size);
  }

  // ----- notify -----------------------------------------------------------

  lemma {:induction false} InvBegin(s: System, x: nat, notice: Notice)
    requires Sound(s) && Enabled(s, BeginNotify(x, notice))
    ensures Sound(Apply(s, BeginNotify(x, notice)))
  {
    var s' := Apply(s, BeginNotify(x, notice));
    assert WellShaped(s');
    forall y | 0 <= y < s.n ensures NodeOk(s', y) && Knows(s', y) && RecvOk(s', y) && Eff(s', y) == Eff(s, y) {
      assert NodeOk(s, y) && Knows(s, y) && RecvOk(s, y);
      BeginNode(s, x, notice, y);
    }
    SameChannels(s, s');
    forall k | k in s'.net ensures MsgOk(s', k) { assert MsgOk(s, k); }
  }

  lemma {:induction false} BeginNode(s: System, x: nat, notice: Notice, y: nat)
    requires WellShaped(s) && Enabled(s, BeginNotify(x, notice)) && y < s.n && NodeOk(s, y) && Knows(s, y) && RecvOk(s, y)
    ensures var s' := Apply(s, BeginNotify(x, notice));
            WellShaped(s') && NodeOk(s', y) && Knows(s', y) && RecvOk(s', y) && Eff(s', y) == Eff(s, y)
  {
    var s' := Apply(s, BeginNotify(x, notice));
    assert Eff(s', y) == Eff(s, y) && Ep(s', y) == Ep(s, y);
  }

  /** Channels depend only on the counters, the marks and the network. */
  lemma {:induction false} SameChannels(s: System, s': System)
    requires Sound(s) && WellShaped(s') && s'.n == s.n && s'.size == s.size && s'.log == s.log
    requires s'.net == s.net
    requires forall y :: 0 <= y < s.n ==> Eff(s', y) == Eff(s, y) && s'.nodes[y].done == s.nodes[y].done
    requires forall y :: 0 <= y < s.n ==> s'.nodes[y].recv == s.nodes[y].recv
    ensures Close(s')
    ensures forall y, i, e :: 0 <= y < s.n && 0 <= i < s.size && 0 <= e ==> ChannelOk(s', y, i, e)
    ensures forall y, i, p :: 0 <= y < s.n && 0 <= i < s.size && 0 <= p < 2 ==> SlotOk(s', y, i, p)
    ensures forall y, i, e :: 0 <= y < s.n && 0 <= i < s.size && 0 <= e ==> AbsorbedOk(s', y, i, e)
  {
    forall a, b | 0 <= a < s.n && 0 <= b < s.n ensures Ep(s', a) <= Ep(s', b) + 1 {
      assert Ep(s, a) <= Ep(s, b) + 1;
    }
    forall y, i, e | 0 <= y < s.n && 0 <= i < s.size && 0 <= e ensures ChannelOk(s', y, i, e) && AbsorbedOk(s', y, i, e) {
      assert ChannelOk(s, y, i, e) && AbsorbedOk(s, y, i, e);
    }
    forall y, i, p | 0 <= y < s.n && 0 <= i < s.size && 0 <= p < 2 ensures SlotOk(s', y, i, p) {
      assert SlotOk(s, y, i, p);
    }
  }

  /** Nobody can start the next episode before everybody has started this one. */
  lemma {:induction false} CompletedKnowsAll(s: System, x: nat, m: nat)
    requires WellShaped(s) && x < s.n && m < s.n && Knows(s, x) && Eff(s, x) == s.size
    ensures Ep(s, m) >= Ep(s, x)
  {
    ReachIsEveryone(s.n, x, s.size, m);
  }

  lemma {:induction false} FinishShape(s: System, x: nat)
    requires WellShaped(s) && Enabled(s, FinishNotify(x))
    ensures WellShaped(Apply(s, FinishNotify(x)))
  {
    var s' := Apply(s, FinishNotify(x));
    forall k | k in s'.net ensures k.to < s.n && k.step < s.size && s'.net[k].phase < 2 {
      if s.size > 0 { FromPeer(s, x, 0); }
    }
  }

  lemma {:induction false} FinishCounts(s: System, x: nat, y: nat, j: nat)
    requires WellShaped(s) && Enabled(s, FinishNotify(x)) && NodeOk(s, x) && y < s.n && j < s.size
    ensures var s' := Apply(s, FinishNotify(x));
            && WellShaped(s') && From(s', y, j) == From(s, y, j)
            && Taken(s', y, j) == Taken(s, y, j)
            && Sent(s', y, j) == (if From(s, y, j) == x && j == 0 then Ep(s, x) + 1 else Sent(s, y, j))
            && (Key(y, j, Ep(s, x) + 1) == Key(Peer(s, x, 0), 0, Ep(s, x) + 1) <==> From(s, y, j) == x && j == 0)
  {
    FinishShape(s, x);
    FromPeer(s, y, j);
    FromPeer(s, x, 0);
  }

  lemma {:induction false} FinishChannel(s: System, x: nat, y: nat, j: nat, e: nat)
    requires Flow(s) && Enabled(s, FinishNotify(x)) && y < s.n && j < s.size
    ensures WellShaped(Apply(s, FinishNotify(x))) && ChannelOk(Apply(s, FinishNotify(x)), y, j, e)
  {
    assert NodeOk(s, x) && Knows(s, x);
    assert ChannelOk(s, y, j, e);
    if From(s, y, j) == x && j == 0 {
      CompletedKnowsAll(s, x, y);
      assert SlotOk(s, y, j, 1 - s.nodes[x].phase);
      assert ChannelOk(s, y, j, Ep(s, x) + 1);
      ChannelWidth(s, y, j);
      FinishChannelSent(s, x, y, e);
    } else {
      FinishChannelOther(s, x, y, j, e);
    }
  }

  lemma {:induction false} FinishChannelSent(s: System, x: nat, y: nat, e: nat)
    requires WellShaped(s) && Enabled(s, FinishNotify(x)) && NodeOk(s, x) && y < s.n && 0 < s.size && From(s, y, 0) == x
    requires ChannelOk(s, y, 0, e) && ChannelOk(s, y, 0, Ep(s, x) + 1) && SlotOk(s, y, 0, 1 - s.nodes[x].phase)
    requires Ep(s, y) >= Ep(s, x)
    ensures WellShaped(Apply(s, FinishNotify(x))) && ChannelOk(Apply(s, FinishNotify(x)), y, 0, e)
  {
    FinishCounts(s, x, y, 0);
  }

  lemma {:induction false} FinishChannelOther(s: System, x: nat, y: nat, j: nat, e: nat)
    requires WellShaped(s) && Enabled(s, FinishNotify(x)) && NodeOk(s, x) && y < s.n && j < s.size
    requires !(From(s, y, j) == x && j == 0) && ChannelOk(s, y, j, e)
    ensures WellShaped(Apply(s, FinishNotify(x))) && ChannelOk(Apply(s, FinishNotify(x)), y, j, e)
  {
    FinishCounts(s, x, y, j);
    FromPeer(s, x, 0);
    assert Key(y, j, e) != Key(Peer(s, x, 0), 0, Ep(s, x) + 1);
  }

  lemma {:induction false} FlowFinish(s: System, x: nat)
    requires Flow(s) && Enabled(s, FinishNotify(x))
    ensures Flow(Apply(s, FinishNotify(x)))
  {
    var s' := Apply(s, FinishNotify(x));
    FinishShape(s, x);
    assert NodeOk(s, x) && Knows(s, x);
    forall y | 0 <= y < s.n ensures NodeOk(s', y) && Knows(s', y) {
      assert NodeOk(s, y) && Knows(s, y);
      FinishKnows(s, x, y);
    }
    forall a, b | 0 <= a < s.n && 0 <= b < s.n ensures Ep(s', a) <= Ep(s', b) + 1 {
      assert Ep(s, a) <= Ep(s, b) + 1;
      CompletedKnowsAll(s, x, b);
    }
    forall y, j, e: nat | 0 <= y < s.n && 0 <= j < s.size ensures ChannelOk(s', y, j, e) {
      FinishChannel(s, x, y, j, e);
    }
    forall y, j, p | 0 <= y < s.n && 0 <= j < s.size && 0 <= p < 2 ensures SlotOk(s', y, j, p) {
      assert SlotOk(s, y, j, p);
      ChannelWidth(s, y, j);
      FinishSlot(s, x, y, j, p);
    }
  }

  lemma {:induction false} FinishSlot(s: System, x: nat, y: nat, j: nat, p: nat)
    requires WellShaped(s) && Enabled(s, FinishNotify(x)) && NodeOk(s, x) && y < s.n && j < s.size && p < 2
    requires SlotOk(s, y, j, p) && Sent(s, y, j) <= Taken(s, y, j) + 2
    ensures WellShaped(Apply(s, FinishNotify(x))) && SlotOk(Apply(s, FinishNotify(x)), y, j, p)
  {
    FinishCounts(s, x, y, j);
    assert Apply(s, FinishNotify(x)).nodes[y].done == s.nodes[y].done;
  }

  lemma {:induction false} FinishKnows(s: System, x: nat, y: nat)
    requires WellShaped(s) && Enabled(s, FinishNotify(x)) && y < s.n
    requires NodeOk(s, y) && Knows(s, y) && NodeOk(s, x)
    ensures WellShaped(Apply(s, FinishNotify(x)))
    ensures NodeOk(Apply(s, FinishNotify(x)), y) && Knows(Apply(s, FinishNotify(x)), y)
  {
    FinishShape(s, x);
    var s' := Apply(s, FinishNotify(x));
    if y == x {
      assert Eff(s', x) == 0;
    } else {
      assert Eff(s', y) == Eff(s, y);
    }
  }

  /** A longer log keeps every cover and every justification. */
  lemma {:induction false} LogGrows(log: seq<seq<Notice>>, x: nat, notice: Notice, e: nat, v: Verdict)
    requires x < |log|
    ensures Below(log, e, v) ==> Below(log[x := log[x] + [notice]], e, v)
    ensures forall who :: Covers(log, who, e, v) ==> Covers(log[x := log[x] + [notice]], who, e, v)
  {
    var log' := log[x := log[x] + [notice]];
    forall y | Bounds(log', e, y) ensures Bounds(log, e, y) {
      forall m | 0 <= m < |log| && 1 <= e <= |log[m]| ensures Leq(Meaning(log[m][e - 1]), y) {
        assert log'[m][e - 1] == log[m][e - 1];
      }
    }
    forall who | Covers(log, who, e, v) ensures Covers(log', who, e, v) {
      forall m | m in who ensures m < |log'| && 1 <= e <= |log'[m]| && Leq(Meaning(log'[m][e - 1]), v) {
        assert log'[m][e - 1] == log[m][e - 1];
      }
    }
  }

  /** A node's own announcement is covered and justified by itself. */
  lemma {:induction false} OwnNotice(log: seq<seq<Notice>>, x: nat, e: nat)
    requires x < |log| && 1 <= e <= |log[x]|
    ensures Covers(log, {x}, e, Meaning(log[x][e - 1])) && Below(log, e, Meaning(log[x][e - 1]))
  {
  }

  lemma {:induction false} FinishMsg(s: System, x: nat, k: Key)
    requires WellShaped(s) && Enabled(s, FinishNotify(x)) && NodeOk(s, x)
    requires k in Apply(s, FinishNotify(x)).net
    requires k in s.net ==> MsgOk(s, k)
    ensures WellShaped(Apply(s, FinishNotify(x))) && MsgOk(Apply(s, FinishNotify(x)), k)
  {
    FinishShape(s, x);
    var s' := Apply(s, FinishNotify(x));
    if k == Key(Peer(s, x, 0), 0, Ep(s, x) + 1) {
      FromPeer(s, x, 0);
      OwnNotice(s'.log, x, Ep(s, x) + 1);
    } else {
      LogGrows(s.log, x, s.nodes[x].local, k.episode, Meaning(s.net[k].notice));
    }
  }

  lemma {:induction false} FinishRecv(s: System, x: nat, y: nat)
    requires WellShaped(s) && Enabled(s, FinishNotify(x)) && y < s.n && NodeOk(s, x) && NodeOk(s, y) && RecvOk(s, y)
    ensures WellShaped(Apply(s, FinishNotify(x))) && RecvOk(Apply(s, FinishNotify(x)), y)
  {
    FinishShape(s, x);
    var s' := Apply(s, FinishNotify(x));
    var nd := s.nodes[y];
    if y == x {
      assert Meaning(nd.recv[nd.phase]) == Open;
      LogGrows(s.log, x, s.nodes[x].local, Ep(s, x) + 1, Meaning(nd.recv[1 - nd.phase]));
      OwnNotice(s'.log, x, Ep(s, x) + 1);
    } else {
      LogGrows(s.log, x, s.nodes[x].local, Ep(s, y) + 1, Meaning(nd.recv[1 - nd.phase]));
      LogGrows(s.log, x, s.nodes[x].local, Ep(s, y), Meaning(nd.recv[nd.phase]));
      assert Eff(s', y) == Eff(s, y) && Ep(s', y) == Ep(s, y);
    }
  }

  lemma {:induction false} FinishAbsorbed(s: System, x: nat, y: nat, j: nat, e: nat)
    requires WellShaped(s) && Enabled(s, FinishNotify(x)) && NodeOk(s, x) && y < s.n && j < s.size
    requires AbsorbedOk(s, y, j, e) && ChannelOk(s, y, j, e)
    ensures WellShaped(Apply(s, FinishNotify(x))) && AbsorbedOk(Apply(s, FinishNotify(x)), y, j, e)
  {
    FinishCounts(s, x, y, j);
    var s', k := Apply(s, FinishNotify(x)), Key(y, j, e);
    if Taken(s, y, j) < e <= Sent(s', y, j) && (k !in s'.net || s'.net[k].merged) {
      FinishKeeps(s, x, k);
      assert Covers(s.log, Reach(s.n, From(s, y, j), j), e, Meaning(s.nodes[y].recv[e % 2]));
      LogGrows(s.log, x, s.nodes[x].local, e, Meaning(s.nodes[y].recv[e % 2]));
      FinishRecvSame(s, x, y, j, e % 2);
    }
  }

  /** A message that is not the new one was there before, and stays as it was. */
  lemma {:induction false} FinishKeeps(s: System, x: nat, k: Key)
    requires WellShaped(s) && Enabled(s, FinishNotify(x)) && k.to < s.n && k.step < s.size
    ensures var s' := Apply(s, FinishNotify(x));
            && WellShaped(s') && (k in s.net ==> k in s'.net)
            && (k in s'.net && s'.net[k].merged ==> k in s.net && s.net[k] == s'.net[k])
            && (From(s, k.to, k.step) == x && k.step == 0 && k.episode == Ep(s, x) + 1 ==> k in s'.net && !s'.net[k].merged)
  {
    FinishShape(s, x);
    FromPeer(s, x, 0);
    FromPeer(s, k.to, k.step);
  }

  lemma {:induction false} FinishRecvSame(s: System, x: nat, y: nat, j: nat, p: nat)
    requires WellShaped(s) && Enabled(s, FinishNotify(x)) && y < s.n && j < s.size && p < 2
    ensures Apply(s, FinishNotify(x)).nodes[y].recv[p] == s.nodes[y].recv[p]
  {
  }

  lemma {:induction false} InvFinish(s: System, x: nat)
    requires Sound(s) && Enabled(s, FinishNotify(x))
    ensures Sound(Apply(s, FinishNotify(x)))
  {
    var s' := Apply(s, FinishNotify(x));
    FlowFinish(s, x);
    assert NodeOk(s, x);
    forall k | k in s'.net ensures MsgOk(s', k) {
      assert k in s.net ==> MsgOk(s, k);
      FinishMsg(s, x, k);
    }
    forall y | 0 <= y < s.n ensures RecvOk(s', y) {
      assert NodeOk(s, y) && RecvOk(s, y);
      FinishRecv(s, x, y);
    }
    forall y, j, e | 0 <= y < s.n && 0 <= j < s.size && 0 <= e ensures AbsorbedOk(s', y, j, e) {
      assert AbsorbedOk(s, y, j, e) && ChannelOk(s, y, j, e);
      FinishAbsorbed(s, x, y, j, e);
    }
  }

  // ----- receive ----------------------------------------------------------

  /** A message in flight belongs to its receiver's current episode, or to the next one. */
  lemma {:induction false} MsgEpisode(s: System, k: Key)
    requires Flow(s) && k in s.net
    ensures s.net[k].phase == k.episode % 2
    ensures Taken(s, k.to, k.step) < k.episode <= Sent(s, k.to, k.step)
    ensures k.episode == Ep(s, k.to) + 1 || (k.episode == Ep(s, k.to) && s.nodes[k.to].active)
    ensures !s.nodes[k.to].done[s.net[k].phase][k.step]
  {
    assert ChannelOk(s, k.to, k.step, k.episode);
    ChannelWidth(s, k.to, k.step);
    assert Key(k.to, k.step, k.episode) == k;
  }

  /** Two states whose nodes have the same log and progress have the same counters. */
  lemma {:induction false} SameCounts(s: System, s': System, y: nat)
    requires WellShaped(s) && WellShaped(s') && y < s.n && s'.n == s.n && s'.size == s.size && s'.log == s.log
    requires forall z :: 0 <= z < s.n ==> Eff(s', z) == Eff(s, z)
    ensures Knows(s, y) ==> Knows(s', y)
    ensures Close(s) ==> Close(s')
    ensures forall j :: 0 <= j < s.size ==> From(s', y, j) == From(s, y, j) && Taken(s', y, j) == Taken(s, y, j) && Sent(s', y, j) == Sent(s, y, j)
  {
    if Close(s) {
      forall a, b | 0 <= a < s.n && 0 <= b < s.n ensures Ep(s', a) <= Ep(s', b) + 1 {
        assert Ep(s, a) <= Ep(s, b) + 1;
      }
    }
  }

  /** Only the log and the notice matter to a message in flight. */
  lemma {:induction false} MsgFrame(s: System, s': System, k: Key)
    requires WellShaped(s) && WellShaped(s') && s'.n == s.n && s'.size == s.size && s'.log == s.log
    requires k in s.net && k in s'.net && s'.net[k].notice == s.net[k].notice && MsgOk(s, k)
    ensures MsgOk(s', k)
  {
  }

  lemma {:induction false} AbsorbCounts(s: System, k: Key, y: nat, j: nat)
    requires WellShaped(s) && Enabled(s, AbsorbMsg(k)) && y < s.n && j < s.size
    ensures var s' := Apply(s, AbsorbMsg(k));
            WellShaped(s') && From(s', y, j) == From(s, y, j) && Taken(s', y, j) == Taken(s, y, j) && Sent(s', y, j) == Sent(s, y, j)
  {
    var s' := Apply(s, AbsorbMsg(k));
    assert Eff(s', y) == Eff(s, y) && Eff(s', From(s, y, j)) == Eff(s, From(s, y, j));
  }

  lemma {:induction false} AbsorbChannel(s: System, k: Key, y: nat, j: nat, e: nat)
    requires WellShaped(s) && Enabled(s, AbsorbMsg(k)) && y < s.n && j < s.size
    ensures WellShaped(Apply(s, AbsorbMsg(k)))
    ensures ChannelOk(s, y, j, e) ==> ChannelOk(Apply(s, AbsorbMsg(k)), y, j, e)
    ensures e < 2 && SlotOk(s, y, j, e) ==> SlotOk(Apply(s, AbsorbMsg(k)), y, j, e)
  {
    AbsorbCounts(s, k, y, j);
  }

  lemma {:induction false} AbsorbNode(s: System, k: Key, y: nat)
    requires WellShaped(s) && Enabled(s, AbsorbMsg(k)) && y < s.n && NodeOk(s, y) && Knows(s, y)
    requires s.net[k].phase == k.episode % 2
    requires k.episode == Ep(s, k.to) + 1 || (k.episode == Ep(s, k.to) && s.nodes[k.to].active)
    ensures WellShaped(Apply(s, AbsorbMsg(k)))
    ensures NodeOk(Apply(s, AbsorbMsg(k)), y) && Knows(Apply(s, AbsorbMsg(k)), y)
  {
    var s' := Apply(s, AbsorbMsg(k));
    assert Eff(s', y) == Eff(s, y);
    assert y != k.to ==> s'.nodes[y] == s.nodes[y];
  }

  lemma {:induction false} FlowAbsorb(s: System, k: Key)
    requires Flow(s) && Enabled(s, AbsorbMsg(k))
    ensures Flow(Apply(s, AbsorbMsg(k)))
  {
    var s' := Apply(s, AbsorbMsg(k));
    assert WellShaped(s');
    MsgEpisode(s, k);
    SameCounts(s, s', 0);
    forall y | 0 <= y < s.n ensures NodeOk(s', y) && Knows(s', y) {
      assert NodeOk(s, y) && Knows(s, y);
      AbsorbNode(s, k, y);
    }
    forall y, j, e | 0 <= y < s.n && 0 <= j < s.size && 0 <= e ensures ChannelOk(s', y, j, e) {
      assert ChannelOk(s, y, j, e);
      AbsorbChannel(s, k, y, j, e);
    }
    forall y, j, p | 0 <= y < s.n && 0 <= j < s.size && 0 <= p < 2 ensures SlotOk(s', y, j, p) {
      assert SlotOk(s, y, j, p);
      AbsorbChannel(s, k, y, j, p);
    }
  }

  lemma {:induction false} InvAbsorb(s: System, k: Key)
    requires Sound(s) && Enabled(s, AbsorbMsg(k))
    ensures Sound(Apply(s, AbsorbMsg(k)))
  {
    FlowAbsorb(s, k);
    MsgEpisode(s, k);
    assert MsgOk(s, k);
    AbsorbKeepsRecv(s, k);
    AbsorbKeepsAbsorbed(s, k);
    AbsorbKeepsMsgs(s, k);
  }

  lemma {:induction false} AbsorbKeepsRecv(s: System, k: Key)
    requires WellShaped(s) && Enabled(s, AbsorbMsg(k)) && MsgOk(s, k) && s.net[k].phase == k.episode % 2
    requires k.episode == Ep(s, k.to) + 1 || (k.episode == Ep(s, k.to) && s.nodes[k.to].active)
    requires forall y :: 0 <= y < s.n ==> NodeOk(s, y) && RecvOk(s, y)
    ensures WellShaped(Apply(s, AbsorbMsg(k))) && forall y :: 0 <= y < s.n ==> RecvOk(Apply(s, AbsorbMsg(k)), y)
  {
    AbsorbSlots(s, k);
    forall y | 0 <= y < s.n ensures RecvOk(Apply(s, AbsorbMsg(k)), y) {
      assert NodeOk(s, y) && RecvOk(s, y);
      AbsorbRecv(s, k, y);
    }
  }

  lemma {:induction false} AbsorbKeepsAbsorbed(s: System, k: Key)
    requires WellShaped(s) && Enabled(s, AbsorbMsg(k)) && MsgOk(s, k) && s.net[k].phase == k.episode % 2
    requires forall y, j, e :: 0 <= y < s.n && 0 <= j < s.size && 0 <= e ==> ChannelOk(s, y, j, e)
    requires forall y, j, e :: 0 <= y < s.n && 0 <= j < s.size && 0 <= e ==> AbsorbedOk(s, y, j, e)
    ensures WellShaped(Apply(s, AbsorbMsg(k)))
    ensures forall y, j, e :: 0 <= y < s.n && 0 <= j < s.size && 0 <= e ==> AbsorbedOk(Apply(s, AbsorbMsg(k)), y, j, e)
  {
    AbsorbSlots(s, k);
    forall y, j, e | 0 <= y < s.n && 0 <= j < s.size && 0 <= e ensures AbsorbedOk(Apply(s, AbsorbMsg(k)), y, j, e) {
      assert ChannelOk(s, y, j, e) && AbsorbedOk(s, y, j, e);
      AbsorbAbsorbed(s, k, y, j, e);
    }
  }

  lemma {:induction false} AbsorbKeepsMsgs(s: System, k: Key)
    requires WellShaped(s) && Enabled(s, AbsorbMsg(k)) && forall m :: m in s.net ==> MsgOk(s, m)
    ensures WellShaped(Apply(s, AbsorbMsg(k))) && forall m :: m in Apply(s, AbsorbMsg(k)).net ==> MsgOk(Apply(s, AbsorbMsg(k)), m)
  {
    AbsorbSlots(s, k);
    var s' := Apply(s, AbsorbMsg(k));
    forall m | m in s'.net ensures MsgOk(s', m) {
      assert m in s.net && MsgOk(s, m);
      MsgFrame(s, s', m);
    }
  }

  /** Absorbing keeps what a slot covers and what bounds it. */
  lemma {:induction false} AbsorbVerdict(log: seq<seq<Notice>>, e: nat, stored: Notice, x: Notice)
    ensures Below(log, e, Meaning(stored)) && Below(log, e, Meaning(x)) ==> Below(log, e, Meaning(Merge(stored, x)))
    ensures forall who :: Covers(log, who, e, Meaning(stored)) ==> Covers(log, who, e, Meaning(Merge(stored, x)))
    ensures forall who :: Covers(log, who, e, Meaning(x)) ==> Covers(log, who, e, Meaning(Merge(stored, x)))
  {
  }

  lemma {:induction false} AbsorbOther(s: System, k: Key, y: nat)
    requires WellShaped(s) && Enabled(s, AbsorbMsg(k)) && y < s.n && y != k.to && RecvOk(s, y)
    ensures WellShaped(Apply(s, AbsorbMsg(k))) && RecvOk(Apply(s, AbsorbMsg(k)), y)
  {
    assert Apply(s, AbsorbMsg(k)).nodes[y] == s.nodes[y];
  }

  /** The slots of the receiver, before and after. */
  lemma {:induction false} AbsorbSlots(s: System, k: Key)
    requires WellShaped(s) && Enabled(s, AbsorbMsg(k))
    ensures var s' := Apply(s, AbsorbMsg(k));
            var nd, nd', p := s.nodes[k.to], s'.nodes[k.to], s.net[k].phase;
            && WellShaped(s') && nd'.recv[p] == Merge(nd.recv[p], s.net[k].notice) && nd'.recv[1 - p] == nd.recv[1 - p]
            && nd' == nd.(recv := nd'.recv) && Eff(s', k.to) == Eff(s, k.to)
  {
  }

  lemma {:induction false} AbsorbReceiver(s: System, k: Key)
    requires WellShaped(s) && Enabled(s, AbsorbMsg(k)) && MsgOk(s, k) && NodeOk(s, k.to) && RecvOk(s, k.to)
    requires s.net[k].phase == k.episode % 2
    requires k.episode == Ep(s, k.to) + 1 || (k.episode == Ep(s, k.to) && s.nodes[k.to].active)
    ensures WellShaped(Apply(s, AbsorbMsg(k))) && RecvOk(Apply(s, AbsorbMsg(k)), k.to)
  {
    AbsorbNext(s, k);
    AbsorbCurrent(s, k);
  }

  lemma {:induction false} AbsorbNext(s: System, k: Key)
    requires WellShaped(s) && Enabled(s, AbsorbMsg(k)) && NextOk(s, k.to) && Below(s.log, k.episode, Meaning(s.net[k].notice))
    requires s.net[k].phase != s.nodes[k.to].phase ==> k.episode == Ep(s, k.to) + 1
    ensures WellShaped(Apply(s, AbsorbMsg(k))) && NextOk(Apply(s, AbsorbMsg(k)), k.to)
  {
    AbsorbSlots(s, k);
    var nd := s.nodes[k.to];
    if s.net[k].phase != nd.phase { MergedIsBelow(s.log, k.episode, nd.recv[1 - nd.phase], s.net[k].notice); }
  }

  lemma {:induction false} AbsorbCurrent(s: System, k: Key)
    requires WellShaped(s) && Enabled(s, AbsorbMsg(k)) && CurrentOk(s, k.to) && Below(s.log, k.episode, Meaning(s.net[k].notice))
    requires s.net[k].phase == s.nodes[k.to].phase ==> k.episode == Ep(s, k.to)
    ensures WellShaped(Apply(s, AbsorbMsg(k))) && CurrentOk(Apply(s, AbsorbMsg(k)), k.to)
  {
    AbsorbSlots(s, k);
    var nd := s.nodes[k.to];
    if s.net[k].phase == nd.phase && nd.active && Ep(s, k.to) >= 1 {
      MergedIsBelow(s.log, k.episode, nd.recv[nd.phase], s.net[k].notice);
      MergedCovers(s.log, Reach(s.n, k.to, Eff(s, k.to)), k.episode, nd.recv[nd.phase], s.net[k].notice);
    }
  }

  lemma {:induction false} MergedIsBelow(log: seq<seq<Notice>>, e: nat, stored: Notice, x: Notice)
    requires Below(log, e, Meaning(stored)) && Below(log, e, Meaning(x))
    ensures Below(log, e, Meaning(Merge(stored, x)))
  {
    AbsorbVerdict(log, e, stored, x);
  }

  lemma {:induction false} MergedCovers(log: seq<seq<Notice>>, who: set<nat>, e: nat, stored: Notice, x: Notice)
    ensures Covers(log, who, e, Meaning(stored)) ==> Covers(log, who, e, Meaning(Merge(stored, x)))
    ensures Covers(log, who, e, Meaning(x)) ==> Covers(log, who, e, Meaning(Merge(stored, x)))
  {
    AbsorbVerdict(log, e, stored, x);
  }

  lemma {:induction false} AbsorbRecv(s: System, k: Key, y: nat)
    requires WellShaped(s) && Enabled(s, AbsorbMsg(k)) && MsgOk(s, k) && y < s.n && NodeOk(s, y) && RecvOk(s, y)
    requires s.net[k].phase == k.episode % 2
    requires k.episode == Ep(s, k.to) + 1 || (k.episode == Ep(s, k.to) && s.nodes[k.to].active)
    ensures WellShaped(Apply(s, AbsorbMsg(k))) && RecvOk(Apply(s, AbsorbMsg(k)), y)
  {
    if y == k.to { AbsorbReceiver(s, k); } else { AbsorbOther(s, k, y); }
  }

  lemma {:induction false} AbsorbAbsorbed(s: System, k: Key, y: nat, j: nat, e: nat)
    requires WellShaped(s) && Enabled(s, AbsorbMsg(k)) && MsgOk(s, k) && y < s.n && j < s.size
    requires s.net[k].phase == k.episode % 2
    requires ChannelOk(s, y, j, e) && AbsorbedOk(s, y, j, e)
    ensures WellShaped(Apply(s, AbsorbMsg(k))) && AbsorbedOk(Apply(s, AbsorbMsg(k)), y, j, e)
  {
    var s' := Apply(s, AbsorbMsg(k));
    AbsorbCounts(s, k, y, j);
    AbsorbSlots(s, k);
    var who, p := Reach(s.n, From(s, y, j), j), e % 2;
    if y == k.to && p == s.net[k].phase {
      AbsorbVerdict(s.log, e, s.nodes[y].recv[p], s.net[k].notice);
    } else {
      assert s'.nodes[y].recv[p] == s.nodes[y].recv[p];
      assert k != Key(y, j, e);
    }
  }

  lemma {:induction false} MarkNode(s: System, k: Key, y: nat)
    requires WellShaped(s) && Enabled(s, MarkMsg(k)) && y < s.n && NodeOk(s, y) && Knows(s, y)
    ensures var s' := Apply(s, MarkMsg(k)); WellShaped(s') && NodeOk(s', y) && Knows(s', y)
  {
    assert Eff(Apply(s, MarkMsg(k)), y) == Eff(s, y);
  }

  lemma {:induction false} FlowMark(s: System, k: Key)
    requires Flow(s) && Enabled(s, MarkMsg(k))
    ensures Flow(Apply(s, MarkMsg(k)))
  {
    var s' := Apply(s, MarkMsg(k));
    assert WellShaped(s');
    MsgEpisode(s, k);
    SameCounts(s, s', 0);
    forall y | 0 <= y < s.n ensures NodeOk(s', y) && Knows(s', y) {
      assert NodeOk(s, y) && Knows(s, y);
      MarkNode(s, k, y);
    }
    forall y, j, e | 0 <= y < s.n && 0 <= j < s.size && 0 <= e ensures ChannelOk(s', y, j, e) {
      assert ChannelOk(s, y, j, e);
      ChannelWidth(s, y, j);
      MarkChannel(s, k, y, j, e);
    }
    forall y, j, p | 0 <= y < s.n && 0 <= j < s.size && 0 <= p < 2 ensures SlotOk(s', y, j, p) {
      assert SlotOk(s, y, j, p);
      ChannelWidth(s, y, j);
      MarkSlot(s, k, y, j, p);
    }
  }

  lemma {:induction false} InvMark(s: System, k: Key)
    requires Sound(s) && Enabled(s, MarkMsg(k))
    ensures Sound(Apply(s, MarkMsg(k)))
  {
    var s' := Apply(s, MarkMsg(k));
    FlowMark(s, k);
    forall y | 0 <= y < s.n ensures RecvOk(s', y) {
      assert RecvOk(s, y);
      MarkRecv(s, k, y);
    }
    forall y, j, e | 0 <= y < s.n && 0 <= j < s.size && 0 <= e ensures AbsorbedOk(s', y, j, e) {
      assert AbsorbedOk(s, y, j, e);
      MarkAbsorbed(s, k, y, j, e);
    }
    forall k' | k' in s'.net ensures MsgOk(s', k') { MsgFrame(s, s', k'); }
  }

  lemma {:induction false} MarkRecv(s: System, k: Key, y: nat)
    requires WellShaped(s) && Enabled(s, MarkMsg(k)) && y < s.n && RecvOk(s, y)
    ensures WellShaped(Apply(s, MarkMsg(k))) && RecvOk(Apply(s, MarkMsg(k)), y)
  {
    assert Eff(Apply(s, MarkMsg(k)), y) == Eff(s, y);
  }

  lemma {:induction false} MarkAbsorbed(s: System, k: Key, y: nat, j: nat, e: nat)
    requires WellShaped(s) && Enabled(s, MarkMsg(k)) && y < s.n && j < s.size && AbsorbedOk(s, y, j, e)
    ensures WellShaped(Apply(s, MarkMsg(k))) && AbsorbedOk(Apply(s, MarkMsg(k)), y, j, e)
  {
    MarkCounts(s, k, y, j);
  }

  lemma {:induction false} MarkCounts(s: System, k: Key, y: nat, j: nat)
    requires WellShaped(s) && Enabled(s, MarkMsg(k)) && y < s.n && j < s.size
    ensures var s' := Apply(s, MarkMsg(k));
            WellShaped(s') && Taken(s', y, j) == Taken(s, y, j) && Sent(s', y, j) == Sent(s, y, j)
  {
    var s' := Apply(s, MarkMsg(k));
    assert Eff(s', y) == Eff(s, y) && Eff(s', From(s, y, j)) == Eff(s, From(s, y, j));
  }

  lemma {:induction false} MarkChannel(s: System, k: Key, y: nat, j: nat, e: nat)
    requires WellShaped(s) && Enabled(s, MarkMsg(k)) && y < s.n && j < s.size
    requires s.net[k].phase == k.episode % 2
    requires Taken(s, k.to, k.step) < k.episode <= Sent(s, k.to, k.step)
    requires ChannelOk(s, y, j, e) && Sent(s, y, j) <= Taken(s, y, j) + 2
    ensures WellShaped(Apply(s, MarkMsg(k))) && ChannelOk(Apply(s, MarkMsg(k)), y, j, e)
  {
    MarkCounts(s, k, y, j);
  }

  lemma {:induction false} MarkSlot(s: System, k: Key, y: nat, j: nat, p: nat)
    requires WellShaped(s) && Enabled(s, MarkMsg(k)) && y < s.n && j < s.size && p < 2
    requires s.net[k].phase == k.episode % 2
    requires Taken(s, k.to, k.step) < k.episode <= Sent(s, k.to, k.step)
    requires SlotOk(s, y, j, p) && Sent(s, y, j) <= Taken(s, y, j) + 2
    ensures WellShaped(Apply(s, MarkMsg(k))) && SlotOk(Apply(s, MarkMsg(k)), y, j, p)
  {
    MarkCounts(s, k, y, j);
  }

  // ----- wait -------------------------------------------------------------

  lemma {:induction false} LeaveNode(s: System, x: nat, y: nat)
    requires WellShaped(s) && Enabled(s, LeaveWait(x)) && y < s.n && NodeOk(s, y) && Knows(s, y)
    ensures var s' := Apply(s, LeaveWait(x)); WellShaped(s') && NodeOk(s', y) && Knows(s', y)
  {
    assert Eff(Apply(s, LeaveWait(x)), y) == Eff(s, y);
  }

  lemma {:induction false} LeaveChannel(s: System, x: nat, y: nat, j: nat, e: nat, p: nat)
    requires WellShaped(s) && Enabled(s, LeaveWait(x)) && y < s.n && j < s.size && p < 2
    ensures var s' := Apply(s, LeaveWait(x));
            WellShaped(s') && (ChannelOk(s, y, j, e) ==> ChannelOk(s', y, j, e)) && (SlotOk(s, y, j, p) ==> SlotOk(s', y, j, p))
  {
    LeaveCounts(s, x, y, j);
  }

  lemma {:induction false} FlowLeave(s: System, x: nat)
    requires Flow(s) && Enabled(s, LeaveWait(x))
    ensures Flow(Apply(s, LeaveWait(x)))
  {
    var s' := Apply(s, LeaveWait(x));
    assert WellShaped(s');
    SameCounts(s, s', 0);
    forall y | 0 <= y < s.n ensures NodeOk(s', y) && Knows(s', y) {
      assert NodeOk(s, y) && Knows(s, y);
      LeaveNode(s, x, y);
    }
    forall y, j, e | 0 <= y < s.n && 0 <= j < s.size && 0 <= e ensures ChannelOk(s', y, j, e) {
      assert ChannelOk(s, y, j, e);
      LeaveChannel(s, x, y, j, e, 0);
    }
    forall y, j, p | 0 <= y < s.n && 0 <= j < s.size && 0 <= p < 2 ensures SlotOk(s', y, j, p) {
      assert SlotOk(s, y, j, p);
      LeaveChannel(s, x, y, j, 0, p);
    }
  }

  lemma {:induction false} LeaveRecv(s: System, x: nat, y: nat)
    requires WellShaped(s) && Enabled(s, LeaveWait(x)) && y < s.n && RecvOk(s, y) && NodeOk(s, x)
    ensures WellShaped(Apply(s, LeaveWait(x))) && RecvOk(Apply(s, LeaveWait(x)), y)
  {
    assert y != x ==> Apply(s, LeaveWait(x)).nodes[y] == s.nodes[y];
  }

  lemma {:induction false} LeaveCounts(s: System, x: nat, y: nat, j: nat)
    requires WellShaped(s) && Enabled(s, LeaveWait(x)) && y < s.n && j < s.size
    ensures var s' := Apply(s, LeaveWait(x));
            WellShaped(s') && From(s', y, j) == From(s, y, j) && Taken(s', y, j) == Taken(s, y, j) && Sent(s', y, j) == Sent(s, y, j)
  {
    var s' := Apply(s, LeaveWait(x));
    assert Eff(s', y) == Eff(s, y) && Eff(s', From(s, y, j)) == Eff(s, From(s, y, j));
  }

  lemma {:induction false} LeaveAbsorbed(s: System, x: nat, y: nat, j: nat, e: nat)
    requires WellShaped(s) && Enabled(s, LeaveWait(x)) && y < s.n && j < s.size && NodeOk(s, x) && AbsorbedOk(s, y, j, e)
    requires Sent(s, y, j) <= Ep(s, y) + 1
    ensures WellShaped(Apply(s, LeaveWait(x))) && AbsorbedOk(Apply(s, LeaveWait(x)), y, j, e)
  {
    LeaveCounts(s, x, y, j);
    if Taken(s, y, j) < e <= Sent(s, y, j) {
      if y == x { assert e == Ep(s, x) + 1; }
      assert Apply(s, LeaveWait(x)).nodes[y].recv[e % 2] == s.nodes[y].recv[e % 2];
    }
  }

  lemma {:induction false} InvLeave(s: System, x: nat)
    requires Sound(s) && Enabled(s, LeaveWait(x))
    ensures Sound(Apply(s, LeaveWait(x)))
  {
    var s' := Apply(s, LeaveWait(x));
    FlowLeave(s, x);
    assert NodeOk(s, x);
    forall y | 0 <= y < s.n ensures RecvOk(s', y) {
      assert RecvOk(s, y);
      LeaveRecv(s, x, y);
    }
    forall y, j, e | 0 <= y < s.n && 0 <= j < s.size && 0 <= e ensures AbsorbedOk(s', y, j, e) {
      assert AbsorbedOk(s, y, j, e);
      ChannelWidth(s, y, j);
      LeaveAbsorbed(s, x, y, j, e);
    }
    forall k | k in s'.net ensures MsgOk(s', k) { MsgFrame(s, s', k); }
  }

  // ----- what was asked for ---------------------------------------------------------------

  /** What node x has sent is what it was asked to announce, and between the two halves
      of a notify it still knows what that is. */
  ghost predicate RecordOk(s: System, x: nat)
    requires WellShaped(s) && x < s.n
  {
    var k := Ep(s, x);
    && |s.named[x]| == k + (if s.nodes[x].entering then 1 else 0)
    && s.log[x] == s.named[x][..k]
    && (s.nodes[x].entering ==> s.nodes[x].local == s.named[x][k])
  }

  ghost predicate Recorded(s: System) { WellShaped(s) && forall x :: 0 <= x < s.n ==> RecordOk(s, x) }

  lemma {:induction false} RecordBegin(s: System, x: nat, notice: Notice, y: nat)
    requires WellShaped(s) && Enabled(s, BeginNotify(x, notice)) && y < s.n && RecordOk(s, y)
    ensures WellShaped(Apply(s, BeginNotify(x, notice))) && RecordOk(Apply(s, BeginNotify(x, notice)), y)
  {
  }

  lemma {:induction false} RecordFinish(s: System, x: nat, y: nat)
    requires WellShaped(s) && Enabled(s, FinishNotify(x)) && y < s.n && RecordOk(s, y)
    ensures WellShaped(Apply(s, FinishNotify(x))) && RecordOk(Apply(s, FinishNotify(x)), y)
  {
    FinishShape(s, x);
    if y == x { assert s.named[x][..Ep(s, x) + 1] == s.named[x][..Ep(s, x)] + [s.named[x][Ep(s, x)]]; }
  }

  /** The other steps neither begin nor finish a notify. */
  lemma {:induction false} RecordOther(s: System, t: Step, y: nat)
    requires WellShaped(s) && Enabled(s, t) && WellShaped(Apply(s, t)) && y < s.n && RecordOk(s, y) && NodeOk(s, y)
    requires t.AbsorbMsg? || t.MarkMsg? || t.KickNode? || t.LeaveWait?
    ensures RecordOk(Apply(s, t), y)
  {
  }

  lemma {:induction false} RecordedStep(s: System, t: Step)
    requires Sound(s) && Recorded(s) && Enabled(s, t) && WellShaped(Apply(s, t))
    ensures Recorded(Apply(s, t))
  {
    forall y | 0 <= y < s.n ensures RecordOk(Apply(s, t), y) {
      assert RecordOk(s, y) && NodeOk(s, y);
      match t
      case BeginNotify(x, notice) => RecordBegin(s, x, notice, y);
      case FinishNotify(x) => RecordFinish(s, x, y);
      case _ => RecordOther(s, t, y);
    }
  }

  // ----- every run --------------------------------------------------------

  ghost predicate Inv(s: System) { Sound(s) && Recorded(s) }

  lemma {:induction false} SoundInit(s: System)
    requires Init(s)
    ensures Sound(s)
  {
    assert WellShaped(s);
    forall x | 0 <= x < s.n ensures NodeOk(s, x) && Knows(s, x) && RecvOk(s, x) && Eff(s, x) == s.size && Ep(s, x) == 0 {
    }
  }

  lemma {:induction false} InvInit(s: System)
    requires Init(s)
    ensures Inv(s)
  {
    SoundInit(s);
  }

  lemma {:induction false} SoundStep(s: System, t: Step)
    requires Sound(s) && Enabled(s, t)
    ensures Sound(Apply(s, t))
  {
    match t
    case BeginNotify(x, notice) => InvBegin(s, x, notice);
    case FinishNotify(x) => InvFinish(s, x);
    case AbsorbMsg(k) => InvAbsorb(s, k);
    case MarkMsg(k) => InvMark(s, k);
    case KickNode(x) => FlowKick(s, x); ValuesKick(s, x);
    case LeaveWait(x) => InvLeave(s, x);
  }

  lemma {:induction false} InvStep(s: System, t: Step)
    requires Inv(s) && Enabled(s, t)
    ensures Inv(Apply(s, t))
  {
    SoundStep(s, t);
    RecordedStep(s, t);
  }

  /** s leads to s' by the given steps, each enabled when taken. */
  ghost predicate Run(s: System, ts: seq<Step>, s': System)
    decreases |ts|
  {
    WellShaped(s) &&
    if ts == [] then s' == s
    else Enabled(s, ts[0]) && Run(Apply(s, ts[0]), ts[1..], s')
  }

  ghost predicate Reachable(s: System) {
    exists s0, ts :: Init(s0) && Run(s0, ts, s)
  }

  lemma {:induction false} InvRun(s: System, ts: seq<Step>, s': System)
    requires Inv(s) && Run(s, ts, s')
    ensures Inv(s')
    decreases |ts|
  {
    if ts != [] {
      InvStep(s, ts[0]);
      InvRun(Apply(s, ts[0]), ts[1..], s');
    }
  }

  lemma {:induction false} ReachableInv(s: System)
    requires Reachable(s)
    ensures Inv(s)
  {
    var s0, ts :| Init(s0) && Run(s0, ts, s);
    InvInit(s0);
    InvRun(s0, ts, s);
  }

  // ----- main theorems ----------------------------------------------------

  /** Safety: when a node may leave episode e, every node has entered episode e,
      and none has entered episode e + 2. */
  lemma {:induction false} BarrierSafety(s: System, x: nat, m: nat)
    requires Reachable(s)
    ensures WellShaped(s)
    ensures Enabled(s, LeaveWait(x)) && m < s.n ==> Ep(s, x) <= Ep(s, m) <= Ep(s, x) + 1
  {
    ReachableInv(s);
    if Enabled(s, LeaveWait(x)) && m < s.n {
      assert Knows(s, x);
      CompletedKnowsAll(s, x, m);
      assert Ep(s, m) <= Ep(s, x) + 1;
    }
  }

  /** Node m has announced episode e. */
  predicate Entered(log: seq<seq<Notice>>, e: nat, m: int) { 0 <= m < |log| && 1 <= e <= |log[m]| }

  /** The dissemination itself: when a node has completed k steps of its episode, the
      2^k nodes that end at it on the ring have entered that episode. */
  lemma {:induction false} RoundEvidence(s: System, x: nat, d: nat)
    requires Reachable(s)
    ensures WellShaped(s)
    ensures x < s.n && d < s.n && d < Pow2(Eff(s, x)) ==> Ep(s, Back(s.n, x, d)) >= Ep(s, x)
  {
    ReachableInv(s);
    if x < s.n && d < s.n && d < Pow2(Eff(s, x)) {
      ReachIsWindow(s.n, x, Eff(s, x), d);
      assert Knows(s, x);
    }
  }

  /** v is the least upper bound of what all nodes announced for episode e. */
  ghost predicate Outcome(log: seq<seq<Notice>>, e: nat, v: Verdict) {
    && (forall m :: 0 <= m < |log| ==> Entered(log, e, m))
    && Bounds(log, e, v) && Below(log, e, v)
  }

  lemma {:induction false} InvConsensus(s: System, x: nat)
    requires Inv(s) && Enabled(s, LeaveWait(x))
    ensures Outcome(s.named, Ep(s, x), Meaning(s.nodes[x].recv[s.nodes[x].phase]))
  {
    LogConsensus(s, x);
    NamedOutcome(s, Ep(s, x), Meaning(s.nodes[x].recv[s.nodes[x].phase]));
  }

  /** What all have sent is what all were asked to announce. */
  lemma {:induction false} NamedOutcome(s: System, e: nat, v: Verdict)
    requires Recorded(s) && Outcome(s.log, e, v)
    ensures Outcome(s.named, e, v)
  {
    forall m | 0 <= m < s.n ensures Entered(s.log, e, m) && Entered(s.named, e, m) && s.named[m][e - 1] == s.log[m][e - 1] {
      assert Entered(s.log, e, m) && RecordOk(s, m);
    }
    forall y | Bounds(s.named, e, y) ensures Bounds(s.log, e, y) {
      forall m | 0 <= m < |s.log| && 1 <= e <= |s.log[m]| ensures Leq(Meaning(s.log[m][e - 1]), y) {
        assert Entered(s.named, e, m);
      }
    }
    forall m | 0 <= m < |s.named| && 1 <= e <= |s.named[m]| ensures Leq(Meaning(s.named[m][e - 1]), v) {
      assert Entered(s.log, e, m);
    }
  }

  lemma {:induction false} LogConsensus(s: System, x: nat)
    requires Sound(s) && Enabled(s, LeaveWait(x))
    ensures Outcome(s.log, Ep(s, x), Meaning(s.nodes[x].recv[s.nodes[x].phase]))
  {
    assert NodeOk(s, x) && RecvOk(s, x) && Eff(s, x) == s.size;
    var v := Meaning(s.nodes[x].recv[s.nodes[x].phase]);
    assert Covers(s.log, Reach(s.n, x, s.size), Ep(s, x), v);
    forall m | 0 <= m < |s.log| ensures Entered(s.log, Ep(s, x), m) && Leq(Meaning(s.log[m][Ep(s, x) - 1]), v) {
      ReachIsEveryone(s.n, x, s.size, m);
    }
  }

  /** Consensus: a node that may leave episode e holds exactly the combination of the
      arguments of all N notifies of episode e, whatever was pipelined around it. */
  lemma {:induction false} BarrierConsensus(s: System, x: nat)
    requires Reachable(s)
    ensures WellShaped(s)
    ensures Enabled(s, LeaveWait(x)) ==> Outcome(s.named, Ep(s, x), Meaning(s.nodes[x].recv[s.nodes[x].phase]))
  {
    ReachableInv(s);
    if Enabled(s, LeaveWait(x)) { InvConsensus(s, x); }
  }

  /** The outcome of an episode is unique, so all nodes leave it with the same one;
      it is a clash iff some notify was already a mismatch or two named values differ. */
  lemma {:induction false} OutcomeIsUnique(log: seq<seq<Notice>>, e: nat, v: Verdict, w: Verdict)
    requires Outcome(log, e, v) && Outcome(log, e, w)
    ensures v == w
  {
    assert Below(log, e, v) && Bounds(log, e, w) && Below(log, e, w) && Bounds(log, e, v);
  }

  /** Two announcements of episode e that cannot both be honoured. */
  ghost predicate Disagree(log: seq<seq<Notice>>, e: nat, a: nat, b: nat) {
    && a < |log| && b < |log| && 1 <= e <= |log[a]| && e <= |log[b]|
    && var p, q := log[a][e - 1], log[b][e - 1];
    p.mismatch || q.mismatch || (!p.anon && !q.anon && p.value != q.value)
  }

  lemma {:induction false} ClashIffDisagreement(log: seq<seq<Notice>>, e: nat, v: Verdict)
    requires Outcome(log, e, v) && |log| > 0
    ensures v == Clash <==> exists a, b :: Disagree(log, e, a, b)
    ensures v.Agreed? ==> exists a :: Entered(log, e, a) && Meaning(log[a][e - 1]) == v
  {
    assert Entered(log, e, 0);
    if v == Clash && forall a, b :: !Disagree(log, e, a, b) { NoDisagreementNoClash(log, e); }
    if a: nat, b: nat :| Disagree(log, e, a, b) {
      assert Leq(Meaning(log[a][e - 1]), v) && Leq(Meaning(log[b][e - 1]), v);
    }
    if v.Agreed? && forall a :: Entered(log, e, a) ==> Meaning(log[a][e - 1]) != v {
      forall m | 0 <= m < |log| && 1 <= e <= |log[m]| ensures Leq(Meaning(log[m][e - 1]), Open) {
        assert Entered(log, e, m) && Leq(Meaning(log[m][e - 1]), v);
      }
      assert Bounds(log, e, Open);
    }
  }

  lemma {:induction false} NoDisagreementNoClash(log: seq<seq<Notice>>, e: nat)
    requires e >= 1 && forall a, b :: !Disagree(log, e, a, b)
    ensures exists y :: y != Clash && Bounds(log, e, y)
  {
    if a :| Entered(log, e, a) && Meaning(log[a][e - 1]) != Open {
      var y := Meaning(log[a][e - 1]);
      assert !Disagree(log, e, a, a);
      forall m | 0 <= m < |log| && 1 <= e <= |log[m]| ensures Leq(Meaning(log[m][e - 1]), y) {
        assert !Disagree(log, e, m, a);
      }
      assert y != Clash && Bounds(log, e, y);
    } else {
      forall m | 0 <= m < |log| && 1 <= e <= |log[m]| ensures Leq(Meaning(log[m][e - 1]), Open) {
        assert Entered(log, e, m);
      }
      assert Bounds(log, e, Open);
    }
  }

  /** Phase reuse is safe: the handler's check that the step is not already marked
      cannot fail, and a send never meets an earlier message with the same tag. */
  lemma {:induction false} NoDoubleMark(s: System, k: Key)
    requires Reachable(s)
    ensures WellShaped(s)
    ensures Enabled(s, MarkMsg(k)) ==> !s.nodes[k.to].done[s.net[k].phase][k.step]
  {
    ReachableInv(s);
    if Enabled(s, MarkMsg(k)) { MsgEpisode(s, k); }
  }

  lemma {:induction false} SendsAreFresh(s: System, x: nat)
    requires Reachable(s)
    ensures WellShaped(s)
    ensures x < s.n ==> KickSends(s, x).Keys !! s.net.Keys
    ensures Enabled(s, FinishNotify(x)) && s.size > 0 ==> Key(Peer(s, x, 0), 0, Ep(s, x) + 1) !in s.net
  {
    ReachableInv(s);
    if x < s.n {
      if k :| k in KickSends(s, x).Keys && k in s.net.Keys {
        FromPeer(s, x, k.step);
        KickNet(s, x, k.to, k.step, k.episode);
        MsgEpisode(s, k);
        if !s.nodes[x].active { IdleKick(s, x); }
        assert false;
      }
      if Enabled(s, FinishNotify(x)) && s.size > 0 {
        var k := Key(Peer(s, x, 0), 0, Ep(s, x) + 1);
        FromPeer(s, x, 0);
        if k in s.net { MsgEpisode(s, k); assert false; }
      }
    }
  }
}
