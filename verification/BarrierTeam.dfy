/** Barrier objects in their place among N nodes: each call on an object, with the
    messages it hands to the network, is one step of the transition system on which
    the barrier theorems are proved, and leaves every other object standing for its
    node. */
module BarrierTeam {
  import opened Dissemination
  import opened BarrierNode
  import opened BarrierSystem
  import opened BarrierImpl

  // ----- the messages of a call ------------------------------------------------------

  function KeyOf(m: Send, episode: nat): Key { Key(m.peer, m.step, episode) }

  function MsgOf(m: Send): Msg { Msg(m.phase, m.notice, false) }

  /** The messages handed to the network are exactly the entries of `net`. */
  ghost predicate Carries(sends: seq<Send>, episode: nat, net: map<Key, Msg>) {
    && (forall i :: 0 <= i < |sends| ==> KeyOf(sends[i], episode) in net && net[KeyOf(sends[i], episode)] == MsgOf(sends[i]))
    && (forall k :: k in net ==> exists i :: 0 <= i < |sends| && k == KeyOf(sends[i], episode))
  }

  /** A kick with the right peer list sends what the system's kick sends. */
  lemma {:induction false} KickLoopSends(s: System, x: nat, peers: seq<nat>, sends: seq<Send>)
    requires WellShaped(s) && x < s.n && |peers| == s.size && PeersOf(peers, s.n, x)
    requires SentByKick(sends, peers, s.nodes[x], s.size)
    ensures Carries(sends, Ep(s, x), KickSends(s, x))
  {
    var nd, c, sent, e := s.nodes[x], KickCursor(s.nodes[x], s.size), KickSends(s, x), Ep(s, x);
    forall i | 0 <= i < |sends| ensures KeyOf(sends[i], e) in sent && sent[KeyOf(sends[i], e)] == MsgOf(sends[i]) {
      var j := nd.step + 1 + i;
      assert KeyOf(sends[i], e) == Key(Peer(s, x, j), j, e);
    }
    forall k | k in sent ensures exists i :: 0 <= i < |sends| && k == KeyOf(sends[i], e) {
      var i := k.step - nd.step - 1;
      assert k == KeyOf(sends[i], e);
    }
  }

  /** A notify sends the one message that the system's notify adds, if any. */
  lemma {:induction false} NotifySends(s: System, x: nat, peers: seq<nat>, sends: seq<Send>) returns (added: map<Key, Msg>)
    requires WellShaped(s) && Enabled(s, FinishNotify(x)) && |peers| == s.size && PeersOf(peers, s.n, x)
    requires s.size == 0 ==> sends == []
    requires s.size > 0 ==> sends == [Send(peers[0], 1 - s.nodes[x].phase, 0, s.nodes[x].local)]
    ensures Carries(sends, Ep(s, x) + 1, added)
    ensures Apply(s, FinishNotify(x)).net == s.net + added
  {
    added := map[];
    if s.size > 0 {
      added := map[Key(Peer(s, x, 0), 0, Ep(s, x) + 1) := Msg(1 - s.nodes[x].phase, s.nodes[x].local, false)];
      assert KeyOf(sends[0], Ep(s, x) + 1) == Key(Peer(s, x, 0), 0, Ep(s, x) + 1);
    }
  }

  // ----- an object in its place -----------------------------------------------------------

  /** The object b is node x of the system: same state, and the right peers. */
  ghost predicate Stands(b: AmdBarrier, s: System, x: nat)
    reads b.Repr()
  {
    WellShaped(s) && x < s.n && b.size == s.size && b.Wired(s.n, x) && b.Represents(s.nodes[x])
  }

  ghost function At(t: Step): nat {
    match t
    case BeginNotify(x, _) => x
    case FinishNotify(x) => x
    case AbsorbMsg(k) => k.to
    case MarkMsg(k) => k.to
    case KickNode(x) => x
    case LeaveWait(x) => x
  }

  /** A step at another node does not concern b. */
  lemma {:induction false} StepIsLocal(b: AmdBarrier, s: System, t: Step, y: nat)
    requires Stands(b, s, y) && Enabled(s, t) && y != At(t) && WellShaped(Apply(s, t))
    ensures Stands(b, Apply(s, t), y)
  {
    assert Apply(s, t).nodes[y] == s.nodes[y];
  }

  /** The objects of a team of n stand for the nodes of an initial system. */
  method NewBarrier(n: nat, x: nat, ghost s: System) returns (b: AmdBarrier)
    requires Init(s) && s.n == n && x < n
    ensures fresh(b.Repr()) && Stands(b, s, x)
  {
    b := new AmdBarrier(n, x);
    CeilLgUnique(n, b.size, s.size);
  }

  lemma {:induction false} CeilLgUnique(n: nat, a: nat, b: nat)
    requires IsCeilLg(n, a) && IsCeilLg(n, b)
    ensures a == b
  {
    if a < b { Pow2Monotone(a, b - 1); }
    if b < a { Pow2Monotone(b, a - 1); }
  }

  method Begin(b: AmdBarrier, notice: Notice, ghost s: System, ghost x: nat)
    requires Stands(b, s, x) && Enabled(s, BeginNotify(x, notice))
    modifies b.Repr()
    ensures Stands(b, Apply(s, BeginNotify(x, notice)), x)
  {
    b.NotifyBegin(notice.value, notice.anon, notice.mismatch, s.nodes[x]);
  }

  lemma {:induction false} FinishApplies(s: System, x: nat)
    requires WellShaped(s) && Enabled(s, FinishNotify(x))
    ensures var s' := Apply(s, FinishNotify(x));
            WellShaped(s') && s'.n == s.n && s'.size == s.size && s'.nodes[x] == BarrierNode.FinishNotify(s.nodes[x], s.size)
  {
    FinishShape(s, x);
  }

  method FinishSends(b: AmdBarrier, ghost s: System, ghost x: nat) returns (sends: seq<Send>, ghost added: map<Key, Msg>)
    requires Stands(b, s, x) && Enabled(s, FinishNotify(x))
    modifies b.Repr()
    ensures b.Represents(BarrierNode.FinishNotify(s.nodes[x], s.size))
    ensures Carries(sends, Ep(s, x) + 1, added) && Apply(s, FinishNotify(x)).net == s.net + added
  {
    sends := b.NotifyFinish(s.nodes[x]);
    added := NotifySends(s, x, b.peers, sends);
  }

  /** The message of a notify is the one that appears in the network. */
  method Finish(b: AmdBarrier, ghost s: System, ghost x: nat) returns (sends: seq<Send>, ghost added: map<Key, Msg>)
    requires Stands(b, s, x) && Enabled(s, FinishNotify(x))
    modifies b.Repr()
    ensures Stands(b, Apply(s, FinishNotify(x)), x)
    ensures Carries(sends, Ep(s, x) + 1, added) && Apply(s, FinishNotify(x)).net == s.net + added
  {
    FinishApplies(s, x);
    sends, added := FinishSends(b, s, x);
  }

  method Receive(b: AmdBarrier, m: Msg, ghost s: System, ghost k: Key)
    requires Stands(b, s, k.to) && Enabled(s, AbsorbMsg(k)) && m == s.net[k]
    modifies b.Repr()
    ensures Stands(b, Apply(s, AbsorbMsg(k)), k.to)
  {
    b.NotifyReqhMerge(m.phase, m.notice, s.nodes[k.to]);
  }

  /** In a reachable system the handler's assertion holds. */
  method Mark(b: AmdBarrier, phase: nat, step: nat, ghost s: System, ghost k: Key) returns (ok: bool)
    requires Stands(b, s, k.to) && Enabled(s, MarkMsg(k)) && phase == s.net[k].phase && step == k.step
    modifies b.Repr()
    ensures Stands(b, Apply(s, MarkMsg(k)), k.to)
    ensures Inv(s) ==> ok
  {
    if Inv(s) { MsgEpisode(s, k); }
    ok := b.NotifyReqhMark(phase, step, s.nodes[k.to]);
  }

  lemma {:induction false} KickApplies(s: System, x: nat)
    requires WellShaped(s) && x < s.n
    ensures var s' := Apply(s, KickNode(x));
            && WellShaped(s') && s'.n == s.n && s'.size == s.size && s'.nodes[x] == BarrierNode.Kick(s.nodes[x], s.size)
            && s'.net == s.net + KickSends(s, x)
  {
    KickShape(s, x);
  }

  method KickMessages(b: AmdBarrier, ghost s: System, ghost x: nat) returns (sends: seq<Send>)
    requires Stands(b, s, x)
    modifies b.Repr()
    ensures b.Represents(BarrierNode.Kick(s.nodes[x], s.size)) && Carries(sends, Ep(s, x), KickSends(s, x))
  {
    sends := b.KickLoop(s.nodes[x]);
    KickLoopSends(s, x, b.peers, sends);
  }

  /** The messages of a kick are exactly those that appear in the network. */
  method Kick(b: AmdBarrier, ghost s: System, ghost x: nat) returns (sends: seq<Send>)
    requires Stands(b, s, x)
    modifies b.Repr()
    ensures Stands(b, Apply(s, KickNode(x)), x)
    ensures Carries(sends, Ep(s, x), KickSends(s, x)) && Apply(s, KickNode(x)).net == s.net + KickSends(s, x)
  {
    KickApplies(s, x);
    sends := KickMessages(b, s, x);
  }

  /** Wait reports a mismatch exactly when the episode's outcome is one, or is a name
      other than the one given. */
  method Wait(b: AmdBarrier, id: int, isAnon: bool, ghost s: System, ghost x: nat) returns (mismatched: bool)
    requires Stands(b, s, x) && Enabled(s, LeaveWait(x))
    modifies b.Repr()
    ensures Stands(b, Apply(s, LeaveWait(x)), x)
    ensures Inv(s) ==> exists v :: Outcome(s.named, Ep(s, x), v) && (mismatched <==> v == Clash || (v.Agreed? && !isAnon && id != v.value))
  {
    if Inv(s) { InvConsensus(s, x); }
    mismatched := b.WaitFinish(id, isAnon, s.nodes[x]);
  }

  /** After wait, a result call reports the name of an episode that agreed on one, and
      that there is none if nobody named any. */
  method Result(b: AmdBarrier, ghost s: System, ghost x: nat, ghost e: nat, ghost v: Verdict) returns (id: int, isAnon: bool)
    requires Stands(b, s, x) && Outcome(s.named, e, v) && Outcome(s.named, e, Meaning(s.nodes[x].local))
    ensures v.Agreed? ==> !isAnon && id == v.value
    ensures v == Open ==> isAnon
  {
    OutcomeIsUnique(s.named, e, v, Meaning(s.nodes[x].local));
    id, isAnon := b.Result(s.nodes[x]);
  }
}
