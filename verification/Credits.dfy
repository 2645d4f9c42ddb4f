/** Credit-based flow control between one pair of ibv-conduit endpoints (no
    SRQ): request credits, banked credits that ride back on other messages, and
    the receive buffers posted for both directions. */
module Credits {

  // ----- sums over message queues -----------------------------------------

  function Sum<T>(xs: seq<T>, w: T -> nat): nat {
    if xs == [] then 0 else w(xs[0]) + Sum(xs[1..], w)
  }

  function Without<T>(xs: seq<T>, i: nat): seq<T>
    requires i < |xs|
  {
    xs[..i] + xs[i + 1..]
  }

  lemma {:induction false} SumConcat<T>(xs: seq<T>, ys: seq<T>, w: T -> nat)
    ensures Sum(xs + ys, w) == Sum(xs, w) + Sum(ys, w)
  {
    if xs == [] {
      assert xs + ys == ys;
    } else {
      assert (xs + ys)[1..] == xs[1..] + ys;
      SumConcat(xs[1..], ys, w);
    }
  }

  lemma {:induction false} SumAppend<T>(xs: seq<T>, x: T, w: T -> nat)
    ensures Sum(xs + [x], w) == Sum(xs, w) + w(x)
  {
    SumConcat(xs, [x], w);
    assert [x][1..] == [];
  }

  lemma {:induction false} SumRemove<T>(xs: seq<T>, i: nat, w: T -> nat)
    requires i < |xs|
    ensures Sum(Without(xs, i), w) == Sum(xs, w) - w(xs[i])
  {
    SumConcat(xs[..i], xs[i + 1..], w);
    SumConcat(xs[..i], xs[i..], w);
    assert xs == xs[..i] + xs[i..];
    assert xs[i..][1..] == xs[i + 1..];
  }

  lemma {:induction false} SumReplace<T>(xs: seq<T>, i: nat, y: T, w: T -> nat)
    requires i < |xs|
    ensures Sum(xs[i := y], w) == Sum(xs, w) - w(xs[i]) + w(y)
  {
    SumRemove(xs, i, w);
    SumRemove(xs[i := y], i, w);
    assert Without(xs[i := y], i) == Without(xs, i);
  }

  // ----- the protocol -----------------------------------------------------

  /** An active message; `carried` is the credit field of its hidden argument. */
  datatype Msg = Msg(isReply: bool, carried: nat)

  /** Only the low eight bits of the credit field are read back. */
  function Decoded(m: Msg): nat { m.carried % 256 }

  /** Credits the receiver of m gains. */
  function Grant(m: Msg): nat { Decoded(m) + if m.isReply then 1 else 0 }
  function IsReq(m: Msg): nat { if m.isReply then 0 else 1 }
  function IsRep(m: Msg): nat { if m.isReply then 1 else 0 }

  /** A request being processed: does it still owe a reply, is it in a pinned buffer
      (otherwise in a temporary copy), and has its handler returned with the bank
      full, so that an acknowledgement is to be sent? */
  datatype Running = Running(needReply: bool, pinned: bool, acking: bool)
  function Owes(r: Running): nat { if r.needReply then 1 else 0 }
  function Pinned(r: Running): nat { if r.pinned then 1 else 0 }

  datatype End = End(
    credits: nat,           // am_rem
    banked: nat,            // am_flow.credit
    posted: nat,            // receive buffers posted for this peer
    spares: nat,            // unposted pinned buffers
    arrived: seq<Msg>,      // completed receives not yet reaped
    running: seq<Running>,
    replyBufs: nat          // reply buffers whose credit is granted but which are not reposted
  )

  /** M credits per direction; `serial` says that no request is injected while
      some reply buffer awaits reposting. */
  datatype Config = Config(m: nat, slack: nat, serial: bool)

  /** The slack in force after the start-up clamps. */
  function EffectiveSlack(asked: nat, m: nat): nat
    requires m >= 1
  {
    var s := if asked < m - 1 then asked else m - 1;
    if s < 256 then s else 256
  }

  /** The slack asked for, unless that exceeds M - 1 or 256: then the smaller of the
      two. */
  lemma {:induction false} EffectiveSlackIs(asked: nat, m: nat, r: nat)
    requires m >= 1
    ensures r == EffectiveSlack(asked, m) <==>
              r <= asked && r <= m - 1 && r <= 256 && (r == asked || r == m - 1 || r == 256)
  {
  }

  datatype Pair = Pair(ends: seq<End>, fly: seq<seq<Msg>>)   // fly[e]: in flight towards e

  ghost predicate Shaped(s: Pair) { |s.ends| == 2 && |s.fly| == 2 }

  lemma {:induction false} SamePair(a: Pair, b: Pair)
    requires Shaped(a) && Shaped(b)
    requires a.ends[0] == b.ends[0] && a.ends[1] == b.ends[1] && a.fly[0] == b.fly[0] && a.fly[1] == b.fly[1]
    ensures a == b
  {
    assert a.ends == b.ends;
    assert a.fly == b.fly;
  }

  datatype Step =
    | SendRequest(e: nat, flow: bool)
    | Arrive(e: nat, i: nat)
    | ReapReply(e: nat, i: nat)
    | RepostReply(e: nat)
    | ReapRequest(e: nat, i: nat)
    | HandlerReply(e: nat, k: nat, flow: bool)
    | HandlerReturn(e: nat, k: nat)
    | Acknowledge(e: nat, k: nat, flow: bool)

  /** The credits a message takes along: `flow` was sampled before the message was
      built, so it can be false although credits are banked by now. */
  function Carried(n: End, flow: bool): nat { if flow then n.banked else 0 }
  function AfterCarry(n: End, flow: bool): End { if flow then n.(banked := 0) else n }

  // What one endpoint does to its own fields.

  function TakeCredit(n: End, flow: bool): End
    requires n.credits > 0
  {
    AfterCarry(n.(credits := n.credits - 1), flow)
  }

  function Receive(n: End, m: Msg): End
    requires n.posted > 0
  {
    n.(posted := n.posted - 1, arrived := n.arrived + [m])
  }

  function TakeReply(n: End, i: nat): End
    requires i < |n.arrived|
  {
    n.(credits := n.credits + Grant(n.arrived[i]), arrived := Without(n.arrived, i), replyBufs := n.replyBufs + 1)
  }

  function Repost(n: End): End
    requires n.replyBufs > 0
  {
    n.(posted := n.posted + 1, replyBufs := n.replyBufs - 1)
  }

  /** A spare is posted before the handler runs; with no spare the message is
      copied and its own buffer reposted. */
  function TakeRequest(n: End, i: nat): End
    requires i < |n.arrived|
  {
    var n1 := n.(credits := n.credits + Grant(n.arrived[i]), arrived := Without(n.arrived, i), posted := n.posted + 1);
    if n.spares > 0
    then n1.(spares := n.spares - 1, running := n.running + [Running(true, true, false)])
    else n1.(running := n.running + [Running(true, false, false)])
  }

  function Answer(n: End, k: nat, flow: bool): End
    requires k < |n.running|
  {
    AfterCarry(n.(running := n.running[k := n.running[k].(needReply := false)]), flow)
  }

  /** The handler has returned without a reply: is the implicit reply to be sent,
      or is its credit banked? */
  predicate MustAck(n: End, k: nat, slack: nat)
    requires k < |n.running|
  {
    n.running[k].needReply && n.banked >= slack
  }

  /** Request k is done with: its buffer goes back to the pool if it was pinned. */
  function Retire(n: End, k: nat): End
    requires k < |n.running|
  {
    n.(running := Without(n.running, k), spares := n.spares + Pinned(n.running[k]))
  }

  /** The decision reads the bank once; banking is one compare-and-swap. */
  function Return(n: End, k: nat, slack: nat): End
    requires k < |n.running|
  {
    if MustAck(n, k, slack) then n.(running := n.running[k := n.running[k].(acking := true)])
    else if n.running[k].needReply then Retire(n, k).(banked := n.banked + 1)
    else Retire(n, k)
  }

  /** The acknowledgement goes out, with whatever is banked by now: another message
      may have taken it since the decision. */
  function Ack(n: End, k: nat, flow: bool): End
    requires k < |n.running|
  {
    AfterCarry(Retire(n, k), flow)
  }

  ghost predicate Enabled(c: Config, s: Pair, t: Step)
    requires Shaped(s)
  {
    t.e < 2 &&
    var n := s.ends[t.e];
    match t
    case SendRequest(_, _) => n.credits > 0 && (c.serial ==> n.replyBufs == 0)
    case Arrive(e, i) => i < |s.fly[e]| && n.posted > 0
    case ReapReply(_, i) => i < |n.arrived| && n.arrived[i].isReply
    case RepostReply(_) => n.replyBufs > 0
    case ReapRequest(_, i) => i < |n.arrived| && !n.arrived[i].isReply
    case HandlerReply(_, k, _) => k < |n.running| && n.running[k].needReply && !n.running[k].acking
    case HandlerReturn(_, k) => k < |n.running| && !n.running[k].acking
    case Acknowledge(_, k, _) => k < |n.running| && n.running[k].needReply && n.running[k].acking
  }

  function Put(s: Pair, e: nat, n: End): Pair
    requires |s.ends| == 2 && e < 2
  {
    s.(ends := s.ends[e := n])
  }

  function Post(s: Pair, e: nat, m: Msg): Pair
    requires |s.fly| == 2 && e < 2
  {
    s.(fly := s.fly[1 - e := s.fly[1 - e] + [m]])
  }

  ghost function Apply(c: Config, s: Pair, t: Step): Pair
    requires Shaped(s) && Enabled(c, s, t)
  {
    var n := s.ends[t.e];
    match t
    case SendRequest(e, flow) => Post(Put(s, e, TakeCredit(n, flow)), e, Msg(false, Carried(n, flow)))
    case Arrive(e, i) => Put(s, e, Receive(n, s.fly[e][i])).(fly := s.fly[e := Without(s.fly[e], i)])
    case ReapReply(e, i) => Put(s, e, TakeReply(n, i))
    case RepostReply(e) => Put(s, e, Repost(n))
    case ReapRequest(e, i) => Put(s, e, TakeRequest(n, i))
    case HandlerReply(e, k, flow) => Post(Put(s, e, Answer(n, k, flow)), e, Msg(true, Carried(n, flow)))
    case HandlerReturn(e, k) => Put(s, e, Return(n, k, c.slack))
    case Acknowledge(e, k, flow) => Post(Put(s, e, Ack(n, k, flow)), e, Msg(true, Carried(n, flow)))
  }

  /** Start-up: M credits, one receive buffer for each possible request or reply. */
  function InitEnd(c: Config, spares: nat): End { End(c.m, 0, 2 * c.m, spares, [], [], 0) }
  function InitPair(c: Config, spares: nat): Pair {
    Pair([InitEnd(c, spares), InitEnd(c, spares)], [[], []])
  }

  ghost predicate Run(c: Config, s: Pair, ts: seq<Step>, s': Pair)
    decreases |ts|
  {
    Shaped(s) && if ts == [] then s' == s else Enabled(c, s, ts[0]) && Run(c, Apply(c, s, ts[0]), ts[1..], s')
  }

  ghost predicate Reachable(c: Config, s: Pair) {
    exists spares, ts :: Run(c, InitPair(c, spares), ts, s)
  }

  lemma {:induction false} RunSnoc(c: Config, s: Pair, ts: seq<Step>, s': Pair, t: Step)
    requires Run(c, s, ts, s') && Shaped(s') && Enabled(c, s', t)
    ensures Run(c, s, ts + [t], Apply(c, s', t))
    decreases |ts|
  {
    if ts == [] {
      assert ts + [t] == [t];
      assert [t][1..] == [];
      assert Run(c, Apply(c, s', t), [], Apply(c, s', t));
    } else {
      assert (ts + [t])[1..] == ts[1..] + [t];
      RunSnoc(c, Apply(c, s, ts[0]), ts[1..], s', t);
    }
  }

  lemma {:induction false} ReachableStep(c: Config, s: Pair, t: Step)
    requires Reachable(c, s) && Shaped(s) && Enabled(c, s, t)
    ensures Reachable(c, Apply(c, s, t)) && Shaped(Apply(c, s, t))
  {
    var spares, ts :| Run(c, InitPair(c, spares), ts, s);
    RunSnoc(c, InitPair(c, spares), ts, s, t);
  }

  // ----- conservation -----------------------------------------------------

  /** Requests of endpoint e that have not been answered or banked. */
  ghost function Unanswered(s: Pair, e: nat): nat
    requires Shaped(s) && e < 2
  {
    var f := 1 - e;
    Sum(s.fly[f], IsReq) + Sum(s.ends[f].arrived, IsReq) + Sum(s.ends[f].running, Owes)
  }

  /** Where the M request credits of endpoint e are: in hand, with an unanswered
      request, banked at the peer, or on their way back. */
  ghost function CreditTotal(s: Pair, e: nat): nat
    requires Shaped(s) && e < 2
  {
    s.ends[e].credits + Unanswered(s, e) + s.ends[1 - e].banked
    + Sum(s.fly[e], Grant) + Sum(s.ends[e].arrived, Grant)
  }

  ghost predicate Conserved(c: Config, s: Pair) {
    Shaped(s) && forall e :: 0 <= e < 2 ==> CreditTotal(s, e) == c.m
  }

  ghost predicate BankBounded(c: Config, s: Pair) {
    Shaped(s) && forall e :: 0 <= e < 2 ==> s.ends[e].banked <= c.slack
  }

  /** Receive buffers: every buffer ever posted is posted, holds an unreaped
      message, or is a reply buffer not yet reposted. */
  ghost predicate BuffersKept(c: Config, s: Pair) {
    Shaped(s) && forall e :: 0 <= e < 2 ==>
      s.ends[e].posted + |s.ends[e].arrived| + s.ends[e].replyBufs == 2 * c.m
  }

  /** Pinned buffers are neither lost nor invented when a request is copied. */
  ghost function PinnedTotal(n: End): nat {
    n.posted + |n.arrived| + n.replyBufs + n.spares + Sum(n.running, Pinned)
  }

  ghost predicate Inv(c: Config, s: Pair) { Conserved(c, s) && BankBounded(c, s) && BuffersKept(c, s) }

  lemma {:induction false} InvInit(c: Config, spares: nat)
    ensures Inv(c, InitPair(c, spares))
  {
  }

  /** What leaving `fly` for `arrived` does to every sum. */
  lemma {:induction false} PostSums(xs: seq<Msg>, m: Msg)
    ensures Sum(xs + [m], IsReq) == Sum(xs, IsReq) + IsReq(m)
    ensures Sum(xs + [m], IsRep) == Sum(xs, IsRep) + IsRep(m)
    ensures Sum(xs + [m], Grant) == Sum(xs, Grant) + Grant(m)
  {
    SumAppend(xs, m, IsReq);
    SumAppend(xs, m, IsRep);
    SumAppend(xs, m, Grant);
  }

  lemma {:induction false} RemoveSums(xs: seq<Msg>, i: nat)
    requires i < |xs|
    ensures Sum(Without(xs, i), IsReq) == Sum(xs, IsReq) - IsReq(xs[i])
    ensures Sum(Without(xs, i), IsRep) == Sum(xs, IsRep) - IsRep(xs[i])
    ensures Sum(Without(xs, i), Grant) == Sum(xs, Grant) - Grant(xs[i])
  {
    SumRemove(xs, i, IsReq);
    SumRemove(xs, i, IsRep);
    SumRemove(xs, i, Grant);
  }

  ghost predicate Grown(xs: seq<Msg>, ys: seq<Msg>, m: Msg) {
    && |ys| == |xs| + 1
    && Sum(ys, IsReq) == Sum(xs, IsReq) + IsReq(m) && Sum(ys, IsRep) == Sum(xs, IsRep) + IsRep(m)
    && Sum(ys, Grant) == Sum(xs, Grant) + Grant(m)
  }

  ghost predicate Dropped(xs: seq<Msg>, ys: seq<Msg>, m: Msg) { Grown(ys, xs, m) }

  ghost predicate PostedTo(s: Pair, s': Pair, f: nat, m: Msg) {
    Shaped(s) && Shaped(s') && f < 2 && Grown(s.fly[f], s'.fly[f], m) && s'.fly[1 - f] == s.fly[1 - f]
  }

  // How each kind of step moves the sums it touches.

  lemma {:induction false} SendSums(c: Config, s: Pair, t: Step)
    requires Shaped(s) && Enabled(c, s, t) && t.SendRequest?
    ensures PostedTo(s, Apply(c, s, t), 1 - t.e, Msg(false, Carried(s.ends[t.e], t.flow)))
  {
    PostSums(s.fly[1 - t.e], Msg(false, Carried(s.ends[t.e], t.flow)));
  }

  lemma {:induction false} ArriveSums(c: Config, s: Pair, t: Step)
    requires Shaped(s) && Enabled(c, s, t) && t.Arrive?
    ensures var s' := Apply(c, s, t);
            Shaped(s') && Dropped(s.fly[t.e], s'.fly[t.e], s.fly[t.e][t.i])
            && Grown(s.ends[t.e].arrived, s'.ends[t.e].arrived, s.fly[t.e][t.i])
  {
    RemoveSums(s.fly[t.e], t.i);
    PostSums(s.ends[t.e].arrived, s.fly[t.e][t.i]);
  }

  lemma {:induction false} ReapSums(c: Config, s: Pair, t: Step)
    requires Shaped(s) && Enabled(c, s, t) && (t.ReapReply? || t.ReapRequest?)
    ensures var n, n' := s.ends[t.e], Apply(c, s, t).ends[t.e];
            && Dropped(n.arrived, n'.arrived, n.arrived[t.i])
            && (t.ReapRequest? ==> Sum(n'.running, Owes) == Sum(n.running, Owes) + 1
                                   && Sum(n'.running, Pinned) == Sum(n.running, Pinned) + if n.spares > 0 then 1 else 0)
  {
    var n := s.ends[t.e];
    RemoveSums(n.arrived, t.i);
    SumAppend(n.running, Running(true, n.spares > 0, false), Owes);
    SumAppend(n.running, Running(true, n.spares > 0, false), Pinned);
  }

  lemma {:induction false} ReplySums(c: Config, s: Pair, t: Step)
    requires Shaped(s) && Enabled(c, s, t) && t.HandlerReply?
    ensures var s' := Apply(c, s, t);
            var n, n' := s.ends[t.e], s'.ends[t.e];
            && PostedTo(s, s', 1 - t.e, Msg(true, Carried(n, t.flow)))
            && Sum(n'.running, Owes) == Sum(n.running, Owes) - 1 && Sum(n'.running, Pinned) == Sum(n.running, Pinned)
  {
    var n := s.ends[t.e];
    PostSums(s.fly[1 - t.e], Msg(true, Carried(n, t.flow)));
    SumReplace(n.running, t.k, n.running[t.k].(needReply := false), Owes);
    SumReplace(n.running, t.k, n.running[t.k].(needReply := false), Pinned);
  }

  lemma {:induction false} ReturnSums(c: Config, s: Pair, t: Step)
    requires Shaped(s) && Enabled(c, s, t) && t.HandlerReturn?
    ensures var s' := Apply(c, s, t);
            var n, n' := s.ends[t.e], s'.ends[t.e];
            && Shaped(s') && s'.fly == s.fly
            && Sum(n'.running, Owes) == Sum(n.running, Owes) - (if MustAck(n, t.k, c.slack) then 0 else Owes(n.running[t.k]))
            && Sum(n'.running, Pinned) == Sum(n.running, Pinned) - (if MustAck(n, t.k, c.slack) then 0 else Pinned(n.running[t.k]))
  {
    var n := s.ends[t.e];
    if MustAck(n, t.k, c.slack) {
      SumReplace(n.running, t.k, n.running[t.k].(acking := true), Owes);
      SumReplace(n.running, t.k, n.running[t.k].(acking := true), Pinned);
    } else {
      SumRemove(n.running, t.k, Owes);
      SumRemove(n.running, t.k, Pinned);
    }
  }

  lemma {:induction false} AckSums(c: Config, s: Pair, t: Step)
    requires Shaped(s) && Enabled(c, s, t) && t.Acknowledge?
    ensures var s' := Apply(c, s, t);
            var n, n' := s.ends[t.e], s'.ends[t.e];
            && PostedTo(s, s', 1 - t.e, Msg(true, Carried(n, t.flow)))
            && Sum(n'.running, Owes) == Sum(n.running, Owes) - 1
            && Sum(n'.running, Pinned) == Sum(n.running, Pinned) - Pinned(n.running[t.k])
  {
    var n := s.ends[t.e];
    PostSums(s.fly[1 - t.e], Msg(true, Carried(n, t.flow)));
    SumRemove(n.running, t.k, Owes);
    SumRemove(n.running, t.k, Pinned);
  }

  lemma {:induction false} StepSums(c: Config, s: Pair, t: Step)
    requires Shaped(s) && Enabled(c, s, t)
    ensures Shaped(Apply(c, s, t)) && Apply(c, s, t).ends[1 - t.e] == s.ends[1 - t.e]
  {
  }

  ghost predicate SameTotals(s: Pair, s': Pair, e: nat) {
    Shaped(s) && Shaped(s') && e < 2 && CreditTotal(s', e) == CreditTotal(s, e) && CreditTotal(s', 1 - e) == CreditTotal(s, 1 - e)
  }

  lemma {:induction false} TotalsSend(c: Config, s: Pair, t: Step)
    requires Shaped(s) && Enabled(c, s, t) && s.ends[t.e].banked <= 255 && t.SendRequest?
    ensures SameTotals(s, Apply(c, s, t), t.e)
  {
    StepSums(c, s, t);
    SendSums(c, s, t);
  }

  lemma {:induction false} TotalsArrive(c: Config, s: Pair, t: Step)
    requires Shaped(s) && Enabled(c, s, t) && t.Arrive?
    ensures SameTotals(s, Apply(c, s, t), t.e)
  {
    StepSums(c, s, t);
    ArriveSums(c, s, t);
  }

  lemma {:induction false} TotalsReap(c: Config, s: Pair, t: Step)
    requires Shaped(s) && Enabled(c, s, t) && (t.ReapReply? || t.ReapRequest?)
    ensures SameTotals(s, Apply(c, s, t), t.e)
  {
    StepSums(c, s, t);
    ReapSums(c, s, t);
  }

  lemma {:induction false} TotalsReply(c: Config, s: Pair, t: Step)
    requires Shaped(s) && Enabled(c, s, t) && s.ends[t.e].banked <= 255 && t.HandlerReply?
    ensures SameTotals(s, Apply(c, s, t), t.e)
  {
    StepSums(c, s, t);
    ReplySums(c, s, t);
  }

  lemma {:induction false} TotalsReturn(c: Config, s: Pair, t: Step)
    requires Shaped(s) && Enabled(c, s, t) && t.HandlerReturn?
    ensures SameTotals(s, Apply(c, s, t), t.e)
  {
    StepSums(c, s, t);
    ReturnSums(c, s, t);
  }

  lemma {:induction false} TotalsAck(c: Config, s: Pair, t: Step)
    requires Shaped(s) && Enabled(c, s, t) && s.ends[t.e].banked <= 255 && t.Acknowledge?
    ensures SameTotals(s, Apply(c, s, t), t.e)
  {
    StepSums(c, s, t);
    AckSums(c, s, t);
  }

  /** Every step keeps the credit totals of both directions, as long as a banked
      count fits its field. */
  lemma {:induction false} TotalsStep(c: Config, s: Pair, t: Step)
    requires Shaped(s) && Enabled(c, s, t) && s.ends[t.e].banked <= 255
    ensures SameTotals(s, Apply(c, s, t), t.e)
  {
    match t
    case SendRequest(_, _) => TotalsSend(c, s, t);
    case Arrive(_, _) => TotalsArrive(c, s, t);
    case ReapReply(_, _) => TotalsReap(c, s, t);
    case RepostReply(_) => StepSums(c, s, t);
    case ReapRequest(_, _) => TotalsReap(c, s, t);
    case HandlerReply(_, _, _) => TotalsReply(c, s, t);
    case HandlerReturn(_, _) => TotalsReturn(c, s, t);
    case Acknowledge(_, _, _) => TotalsAck(c, s, t);
  }

  /** The counts of one endpoint that a step leaves in bounds. */
  lemma {:induction false} EndStep(c: Config, s: Pair, t: Step)
    requires Shaped(s) && Enabled(c, s, t)
    ensures Shaped(Apply(c, s, t)) && Apply(c, s, t).ends[1 - t.e] == s.ends[1 - t.e]
    ensures var n, n' := s.ends[t.e], Apply(c, s, t).ends[t.e];
            && (n.banked <= c.slack ==> n'.banked <= c.slack)
            && n'.posted + |n'.arrived| + n'.replyBufs == n.posted + |n.arrived| + n.replyBufs
  {
  }

  lemma {:induction false} InvStep(c: Config, s: Pair, t: Step)
    requires Inv(c, s) && Enabled(c, s, t) && c.slack <= 255
    ensures Inv(c, Apply(c, s, t))
  {
    EndStep(c, s, t);
    TotalsStep(c, s, t);
    var s' := Apply(c, s, t);
    forall e | 0 <= e < 2
      ensures CreditTotal(s', e) == c.m && s'.ends[e].banked <= c.slack
      ensures s'.ends[e].posted + |s'.ends[e].arrived| + s'.ends[e].replyBufs == 2 * c.m
    {
      assert CreditTotal(s, e) == c.m && s.ends[e].banked <= c.slack;
      assert e == t.e || e == 1 - t.e;
    }
  }

  lemma {:induction false} InvRun(c: Config, s: Pair, ts: seq<Step>, s': Pair)
    requires Inv(c, s) && Run(c, s, ts, s') && c.slack <= 255
    ensures Inv(c, s')
    decreases |ts|
  {
    if ts != [] {
      InvStep(c, s, ts[0]);
      InvRun(c, Apply(c, s, ts[0]), ts[1..], s');
    }
  }

  lemma {:induction false} ReachableInv(c: Config, s: Pair)
    requires Reachable(c, s) && c.slack <= 255
    ensures Inv(c, s)
  {
    var spares, ts :| Run(c, InitPair(c, spares), ts, s);
    InvInit(c, spares);
    InvRun(c, InitPair(c, spares), ts, s);
  }

  /** Copying a request when the pool is empty neither loses nor invents a pinned buffer. */
  lemma {:induction false} PinnedConserved(c: Config, s: Pair, t: Step, e: nat)
    requires Shaped(s) && Enabled(c, s, t) && e < 2
    ensures Shaped(Apply(c, s, t)) && PinnedTotal(Apply(c, s, t).ends[e]) == PinnedTotal(s.ends[e])
  {
    StepSums(c, s, t);
    match t
    case SendRequest(_, _) =>
    case Arrive(_, _) =>
    case ReapReply(_, _) =>
    case RepostReply(_) =>
    case ReapRequest(_, _) => ReapSums(c, s, t);
    case HandlerReply(_, _, _) => ReplySums(c, s, t);
    case HandlerReturn(_, _) => ReturnSums(c, s, t);
    case Acknowledge(_, _, _) => AckSums(c, s, t);
  }

  // ----- no starvation ----------------------------------------------------

  /** Nothing in flight, nothing unreaped, no handler running. */
  ghost predicate Quiescent(s: Pair) {
    Shaped(s) && forall e :: 0 <= e < 2 ==> s.fly[e] == [] && s.ends[e].arrived == [] && s.ends[e].running == []
  }

  /** An idle pair holds all credits but the banked ones, so with the start-up
      clamp on the slack a request can always be sent eventually. */
  lemma {:induction false} NoStarvation(c: Config, s: Pair, e: nat, asked: nat)
    requires c.m >= 1 && c.slack == EffectiveSlack(asked, c.m) && c.slack <= 255
    requires Reachable(c, s) && e < 2
    ensures Shaped(s)
    ensures Quiescent(s) ==> s.ends[e].credits == c.m - s.ends[1 - e].banked >= c.m - c.slack >= 1
    ensures s.ends[e].credits == 0 ==> !Quiescent(s)
  {
    ReachableInv(c, s);
    assert CreditTotal(s, e) == c.m;
    assert s.ends[1 - e].banked <= c.slack;
    if Quiescent(s) {
      assert s.fly[0] == [] && s.fly[1] == [];
      assert s.fly[e] == [] && s.fly[1 - e] == [];
      assert s.ends[e].arrived == [] && s.ends[1 - e].arrived == [] && s.ends[1 - e].running == [];
    }
  }

  /** M bounds the requests of one endpoint that are not acknowledged. */
  lemma {:induction false} UnansweredBounded(c: Config, s: Pair, e: nat)
    requires Reachable(c, s) && c.slack <= 255 && e < 2
    ensures Shaped(s) && Unanswered(s, e) + Sum(s.fly[e], IsRep) + Sum(s.ends[e].arrived, IsRep) <= c.m
  {
    ReachableInv(c, s);
    assert CreditTotal(s, e) == c.m;
    RepsAreGrants(s.fly[e]);
    RepsAreGrants(s.ends[e].arrived);
  }

  lemma {:induction false} RepsAreGrants(xs: seq<Msg>)
    ensures Sum(xs, IsRep) <= Sum(xs, Grant)
    ensures Sum(xs, IsRep) + Sum(xs, IsReq) == |xs|
  {
    if xs != [] { RepsAreGrants(xs[1..]); }
  }

  // ----- receiver-not-ready -----------------------------------------------

  /** Every message in flight towards an endpoint has a posted buffer waiting. */
  ghost predicate BufferForEach(s: Pair) {
    Shaped(s) && forall e :: 0 <= e < 2 ==> |s.fly[e]| <= s.ends[e].posted
  }

  /** Replies due to e, in any stage up to the reposting of their buffer. */
  ghost function RepliesDue(s: Pair, e: nat): nat
    requires Shaped(s) && e < 2
  {
    Unanswered(s, e) + Sum(s.fly[e], IsRep) + Sum(s.ends[e].arrived, IsRep) + s.ends[e].replyBufs
  }

  ghost predicate DueBounded(c: Config, s: Pair) {
    Shaped(s) && forall e :: 0 <= e < 2 ==> RepliesDue(s, e) <= c.m
  }

  /** A request is injected only with a credit in hand, so it finds room. */
  lemma {:induction false} DueStep(c: Config, s: Pair, t: Step)
    requires Inv(c, s) && DueBounded(c, s) && Enabled(c, s, t) && c.slack <= 255 && c.serial
    ensures DueBounded(c, Apply(c, s, t))
  {
    assert CreditTotal(s, t.e) == c.m;
    assert RepliesDue(s, t.e) <= c.m && RepliesDue(s, 1 - t.e) <= c.m;
    DueMoves(c, s, t);
  }

  lemma {:induction false} DueSend(c: Config, s: Pair, t: Step)
    requires Shaped(s) && Enabled(c, s, t) && c.serial && CreditTotal(s, t.e) == c.m && t.SendRequest?
    ensures Shaped(Apply(c, s, t))
    ensures RepliesDue(Apply(c, s, t), 1 - t.e) <= RepliesDue(s, 1 - t.e)
    ensures RepliesDue(s, t.e) <= c.m ==> RepliesDue(Apply(c, s, t), t.e) <= c.m
  {
    StepSums(c, s, t);
    SendSums(c, s, t);
    RepsAreGrants(s.fly[t.e]);
    RepsAreGrants(s.ends[t.e].arrived);
  }

  lemma {:induction false} DueMoves(c: Config, s: Pair, t: Step)
    requires Shaped(s) && Enabled(c, s, t) && c.serial && CreditTotal(s, t.e) == c.m
    ensures Shaped(Apply(c, s, t))
    ensures RepliesDue(Apply(c, s, t), 1 - t.e) <= RepliesDue(s, 1 - t.e)
    ensures RepliesDue(s, t.e) <= c.m ==> RepliesDue(Apply(c, s, t), t.e) <= c.m
  {
    StepSums(c, s, t);
    match t
    case SendRequest(_, _) => DueSend(c, s, t);
    case Arrive(_, _) => ArriveSums(c, s, t);
    case ReapReply(_, _) => ReapSums(c, s, t);
    case RepostReply(_) =>
    case ReapRequest(_, _) => ReapSums(c, s, t);
    case HandlerReply(_, _, _) => ReplySums(c, s, t);
    case HandlerReturn(_, _) => ReturnSums(c, s, t);
    case Acknowledge(_, _, _) => AckSums(c, s, t);
  }

  lemma {:induction false} DueRun(c: Config, s: Pair, ts: seq<Step>, s': Pair)
    requires Inv(c, s) && DueBounded(c, s) && Run(c, s, ts, s') && c.slack <= 255 && c.serial
    ensures Inv(c, s') && DueBounded(c, s')
    decreases |ts|
  {
    if ts != [] {
      InvStep(c, s, ts[0]);
      DueStep(c, s, ts[0]);
      DueRun(c, Apply(c, s, ts[0]), ts[1..], s');
    }
  }

  /** If requests are not injected while a reply buffer is unposted, no message
      can ever find the receiver not ready. */
  lemma {:induction false} SerialNeverNotReady(c: Config, s: Pair)
    requires Reachable(c, s) && c.slack <= 255 && c.serial
    ensures BufferForEach(s)
  {
    var spares, ts :| Run(c, InitPair(c, spares), ts, s);
    InvInit(c, spares);
    DueRun(c, InitPair(c, spares), ts, s);
    forall e | 0 <= e < 2 ensures |s.fly[e]| <= s.ends[e].posted {
      assert RepliesDue(s, e) <= c.m && CreditTotal(s, 1 - e) == c.m;
      assert s.ends[e].posted + |s.ends[e].arrived| + s.ends[e].replyBufs == 2 * c.m;
      RepsAreGrants(s.fly[e]);
      RepsAreGrants(s.ends[e].arrived);
    }
  }
}
