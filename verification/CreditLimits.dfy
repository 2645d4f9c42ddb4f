/** Where the flow control stops keeping its promise: the exact conditions, with
    the runs that break them. */
module CreditLimits {
  import opened Credits

  // ----- credits lost in an eight-bit field -------------------------------

  /** Endpoint 1 after handling k requests of endpoint 0 without replying. */
  ghost function Banking(c: Config, k: nat): Pair
    requires k <= c.m
  {
    Pair([InitEnd(c, 0).(credits := c.m - k), InitEnd(c, 0).(banked := k)], [[], []])
  }

  /** Endpoint 1 has nothing to do. */
  ghost predicate Quiet(s: Pair) {
    Shaped(s) && s.fly[1] == [] && s.ends[1].posted > 0 && s.ends[1].arrived == [] && s.ends[1].running == [] && s.ends[1].spares == 0
  }

  /** s after endpoint 0 has sent a request that now runs at endpoint 1. */
  ghost function Asked(s: Pair, r: seq<Running>): Pair
    requires Shaped(s) && s.ends[0].credits > 0
  {
    Pair([s.ends[0].(credits := s.ends[0].credits - 1), s.ends[1].(running := r)], [s.fly[0], []])
  }

  /** Step t leads from a reachable s to the state with these parts. */
  lemma {:induction false} Leads(c: Config, s: Pair, t: Step, s': Pair)
    requires Reachable(c, s) && Shaped(s) && Enabled(c, s, t) && Shaped(s')
    requires var r := Apply(c, s, t);
             Shaped(r) && r.ends[0] == s'.ends[0] && r.ends[1] == s'.ends[1] && r.fly[0] == s'.fly[0] && r.fly[1] == s'.fly[1]
    ensures Reachable(c, s')
  {
    ReachableStep(c, s, t);
    SamePair(Apply(c, s, t), s');
  }

  lemma {:induction false} Asking(c: Config, s: Pair)
    requires Reachable(c, s) && Quiet(s) && Enabled(c, s, SendRequest(0, false))
    ensures Reachable(c, Asked(s, [Running(true, false, false)]))
  {
    var a0, n := s.ends[0].(credits := s.ends[0].credits - 1), s.ends[1];
    Leads(c, s, SendRequest(0, false), Pair([a0, n], [s.fly[0], [Msg(false, 0)]]));
    Arriving(c, Pair([a0, n], [s.fly[0], [Msg(false, 0)]]));
    var b := n.(posted := n.posted - 1, arrived := [Msg(false, 0)]);
    Reaping(c, Pair([a0, b], [s.fly[0], []]), n.posted);
    assert b.(posted := n.posted, arrived := [], running := [Running(true, false, false)]) == n.(running := [Running(true, false, false)]);
  }

  lemma {:induction false} Arriving(c: Config, s: Pair)
    requires Reachable(c, s) && Shaped(s) && s.fly[1] == [Msg(false, 0)] && s.ends[1].posted > 0 && s.ends[1].arrived == []
    ensures Reachable(c, Pair([s.ends[0], s.ends[1].(posted := s.ends[1].posted - 1, arrived := [Msg(false, 0)])], [s.fly[0], []]))
  {
    assert Without(s.fly[1], 0) == [];
    Leads(c, s, Arrive(1, 0), Pair([s.ends[0], s.ends[1].(posted := s.ends[1].posted - 1, arrived := [Msg(false, 0)])], [s.fly[0], []]));
  }

  lemma {:induction false} Reaping(c: Config, s: Pair, posted: nat)
    requires Reachable(c, s) && Shaped(s) && s.ends[1].arrived == [Msg(false, 0)] && s.ends[1].running == [] && s.ends[1].spares == 0
    requires s.ends[1].posted + 1 == posted && s.fly[1] == []
    ensures Reachable(c, Pair([s.ends[0], s.ends[1].(posted := posted, arrived := [], running := [Running(true, false, false)])], [s.fly[0], []]))
  {
    assert Without(s.ends[1].arrived, 0) == [];
    Leads(c, s, ReapRequest(1, 0), Pair([s.ends[0], s.ends[1].(posted := posted, arrived := [], running := [Running(true, false, false)])], [s.fly[0], []]));
  }

  /** One more request handled without a reply while the bank has room. */
  lemma {:induction false} BankOne(c: Config, s: Pair)
    requires Reachable(c, s) && Quiet(s) && Enabled(c, s, SendRequest(0, false)) && s.ends[1].banked < c.slack
    ensures Reachable(c, Pair([s.ends[0].(credits := s.ends[0].credits - 1), s.ends[1].(banked := s.ends[1].banked + 1)], [s.fly[0], []]))
  {
    Asking(c, s);
    var s1 := Asked(s, [Running(true, false, false)]);
    assert Without(s1.ends[1].running, 0) == [];
    Leads(c, s1, HandlerReturn(1, 0),
          Pair([s.ends[0].(credits := s.ends[0].credits - 1), s.ends[1].(banked := s.ends[1].banked + 1)], [s.fly[0], []]));
  }

  lemma {:induction false} InitReachable(c: Config)
    ensures Reachable(c, InitPair(c, 0))
  {
    assert Run(c, InitPair(c, 0), [], InitPair(c, 0));
  }

  lemma {:induction false} BankingReachable(c: Config, k: nat)
    requires k <= c.m && k <= c.slack
    ensures Reachable(c, Banking(c, k))
  {
    if k == 0 {
      InitReachable(c);
      assert Banking(c, 0) == InitPair(c, 0);
    } else {
      BankingReachable(c, k - 1);
      BankOne(c, Banking(c, k - 1));
    }
  }

  /** With a slack of 256 the 256th banked credit is lost by the next message. */
  lemma {:induction false} SlackOf256LosesCredits(c: Config)
    requires c.slack >= 256 && c.m >= 256
    ensures exists s :: Reachable(c, s) && !Conserved(c, s)
  {
    var s := Banking(c, 256);
    BankingReachable(c, 256);
    ReachableStep(c, s, SendRequest(1, true));
    var s' := Apply(c, s, SendRequest(1, true));
    assert s'.fly[0] == [Msg(false, 256)];
    assert Sum(s'.fly[0], Grant) == Grant(Msg(false, 256)) + Sum([], Grant);
    assert s'.ends[0].credits == c.m - 256 && s'.ends[1].banked == 0;
    assert s'.fly[1] == [] && s'.ends[1].arrived == [] && s'.ends[1].running == [] && s'.ends[0].arrived == [];
    assert CreditTotal(s', 0) == c.m - 256;
  }

  /** Credits are conserved in all runs exactly when the slack in force is at most
      255; the start-up clamp admits 256. */
  lemma {:induction false} ConservationIffSlackFits(c: Config, asked: nat)
    requires c.m >= 1 && c.slack == EffectiveSlack(asked, c.m)
    ensures (forall s :: Reachable(c, s) ==> Conserved(c, s)) <==> c.slack <= 255
  {
    if c.slack <= 255 {
      forall s | Reachable(c, s) ensures Conserved(c, s) { ReachableInv(c, s); }
    } else {
      SlackOf256LosesCredits(c);
    }
  }

  // ----- receiver not ready -----------------------------------------------

  /** j requests in flight to endpoint 0, and k replies to its own requests. */
  ghost function Crowd(c: Config, j: nat, k: nat): Pair
    requires j <= c.m && k <= c.m
  {
    Pair([InitEnd(c, 0).(credits := c.m - k), InitEnd(c, 0).(credits := c.m - j)],
         [seq(j, i => Msg(false, 0)) + seq(k, i => Msg(true, 0)), []])
  }

  /** s with one credit less at endpoint 0 and one reply more on its way to it. */
  ghost function Answered(s: Pair): Pair
    requires Shaped(s) && s.ends[0].credits > 0
  {
    Pair([s.ends[0].(credits := s.ends[0].credits - 1), s.ends[1]], [s.fly[0] + [Msg(true, 0)], []])
  }

  /** One request of endpoint 0, answered. */
  lemma {:induction false} RoundTrip(c: Config, s: Pair)
    requires Reachable(c, s) && Quiet(s) && Enabled(c, s, SendRequest(0, false))
    ensures Reachable(c, Answered(s))
  {
    Asking(c, s);
    var s1 := Asked(s, [Running(true, false, false)]);
    assert s1.ends[1].running[0 := Running(false, false, false)] == [Running(false, false, false)];
    var s2 := Pair(Asked(s, [Running(false, false, false)]).ends, [s.fly[0] + [Msg(true, 0)], []]);
    Leads(c, s1, HandlerReply(1, 0, false), s2);
    Retiring(c, s2);
    SamePair(Pair([s2.ends[0], s2.ends[1].(running := [])], s2.fly), Answered(s));
  }

  lemma {:induction false} Retiring(c: Config, s: Pair)
    requires Reachable(c, s) && Shaped(s) && s.ends[1].running == [Running(false, false, false)]
    ensures Reachable(c, Pair([s.ends[0], s.ends[1].(running := [])], s.fly))
  {
    assert Without(s.ends[1].running, 0) == [];
    Leads(c, s, HandlerReturn(1, 0), Pair([s.ends[0], s.ends[1].(running := [])], s.fly));
  }

  lemma {:induction false} OneMoreRequest(c: Config, s: Pair)
    requires Reachable(c, s) && Shaped(s) && s.ends[1].credits > 0 && s.ends[1].replyBufs == 0
    ensures Reachable(c, Pair([s.ends[0], s.ends[1].(credits := s.ends[1].credits - 1)], [s.fly[0] + [Msg(false, 0)], s.fly[1]]))
  {
    Leads(c, s, SendRequest(1, false),
          Pair([s.ends[0], s.ends[1].(credits := s.ends[1].credits - 1)], [s.fly[0] + [Msg(false, 0)], s.fly[1]]));
  }

  lemma {:induction false} CrowdGrows(c: Config, j: nat, k: nat)
    requires j <= c.m && k < c.m
    ensures Answered(Crowd(c, j, k)) == Crowd(c, j, k + 1)
  {
    assert Answered(Crowd(c, j, k)).fly[0] == Crowd(c, j, k + 1).fly[0];
  }

  lemma {:induction false} CrowdWidens(c: Config, j: nat)
    requires 0 < j <= c.m && Reachable(c, Crowd(c, j - 1, 0))
    ensures Reachable(c, Crowd(c, j, 0))
  {
    var s := Crowd(c, j - 1, 0);
    OneMoreRequest(c, s);
    assert s.fly[0] + [Msg(false, 0)] == Crowd(c, j, 0).fly[0];
    SamePair(Pair([s.ends[0], s.ends[1].(credits := s.ends[1].credits - 1)], [s.fly[0] + [Msg(false, 0)], s.fly[1]]), Crowd(c, j, 0));
  }

  lemma {:induction false} CrowdStart(c: Config)
    ensures Reachable(c, Crowd(c, 0, 0))
  {
    InitReachable(c);
    assert Crowd(c, 0, 0).fly[0] == [];
    SamePair(Crowd(c, 0, 0), InitPair(c, 0));
  }

  lemma {:induction false} CrowdReplies(c: Config, j: nat, k: nat)
    requires j <= c.m && k < c.m && Reachable(c, Crowd(c, j, k))
    ensures Reachable(c, Crowd(c, j, k + 1))
  {
    RoundTrip(c, Crowd(c, j, k));
    CrowdGrows(c, j, k);
  }

  lemma {:induction false} CrowdOfRequests(c: Config, j: nat)
    requires j <= c.m
    ensures Reachable(c, Crowd(c, j, 0))
  {
    if j > 0 {
      CrowdOfRequests(c, j - 1);
      CrowdWidens(c, j);
    } else {
      CrowdStart(c);
    }
  }

  lemma {:induction false} CrowdReachable(c: Config, j: nat, k: nat)
    requires j <= c.m && k <= c.m
    ensures Reachable(c, Crowd(c, j, k))
    decreases k
  {
    if k > 0 {
      CrowdReachable(c, j, k - 1);
      CrowdReplies(c, j, k - 1);
    } else {
      CrowdOfRequests(c, j);
    }
  }

  /** A reply is reaped: its credit is in hand, its buffer not yet reposted. */
  lemma {:induction false} ReplyTaken(c: Config, s: Pair, i: nat)
    requires Reachable(c, s) && Shaped(s) && i < |s.fly[0]| && s.fly[0][i] == Msg(true, 0)
    requires s.ends[0].posted > 0 && s.ends[0].arrived == []
    ensures Reachable(c, Pair([s.ends[0].(credits := s.ends[0].credits + 1, posted := s.ends[0].posted - 1, replyBufs := s.ends[0].replyBufs + 1), s.ends[1]],
                              [Without(s.fly[0], i), s.fly[1]]))
  {
    var s' := Pair([s.ends[0].(credits := s.ends[0].credits + 1, posted := s.ends[0].posted - 1, replyBufs := s.ends[0].replyBufs + 1), s.ends[1]],
                   [Without(s.fly[0], i), s.fly[1]]);
    var s1 := Pair([s.ends[0].(posted := s.ends[0].posted - 1, arrived := [Msg(true, 0)]), s.ends[1]], [Without(s.fly[0], i), s.fly[1]]);
    Leads(c, s, Arrive(0, i), s1);
    assert Without(s1.ends[0].arrived, 0) == [];
    Leads(c, s1, ReapReply(0, 0), s');
  }

  /** A reply grants its credit before its buffer is reposted; a request injected
      in between can bring one message more than there are buffers. */
  lemma {:induction false} OverlapCanBeNotReady(c: Config)
    requires !c.serial && c.m >= 1
    ensures exists s :: Reachable(c, s) && !BufferForEach(s)
  {
    var s := Crowd(c, c.m, c.m);
    CrowdReachable(c, c.m, c.m);
    ReplyTaken(c, s, c.m);
    var s2 := Pair([s.ends[0].(credits := 1, posted := 2 * c.m - 1, replyBufs := 1), s.ends[1]], [Without(s.fly[0], c.m), s.fly[1]]);
    RoundTrip(c, s2);
    var s3 := Pair([s2.ends[0].(credits := 0), s2.ends[1]], [s2.fly[0] + [Msg(true, 0)], []]);
    assert |s3.fly[0]| == 2 * c.m;
    assert !BufferForEach(s3);
  }

  /** No message ever lacks a posted buffer exactly when request injection and the
      reposting of reply buffers do not overlap. */
  lemma {:induction false} AlwaysReadyIffSerial(c: Config)
    requires c.m >= 1 && c.slack <= 255
    ensures (forall s :: Reachable(c, s) ==> BufferForEach(s)) <==> c.serial
  {
    if c.serial {
      forall s | Reachable(c, s) ensures BufferForEach(s) { SerialNeverNotReady(c, s); }
    } else {
      OverlapCanBeNotReady(c);
    }
  }
}
