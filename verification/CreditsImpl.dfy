/** The endpoint object of the flow control, field by field, and the packing of
    piggybacked credits into the hidden argument of a message. */
module CreditsImpl {
  import opened Credits

  // ----- the hidden argument ----------------------------------------------

  function GenHiddenArg(credits: bv32, numargs: bv32): bv32 { credits | ((numargs + 1) << 16) }
  function HiddenArgCredits(arg: bv32): bv32 { arg & 0xff }
  function HiddenArgFullNargs(arg: bv32): bv32 { (arg >> 16) & 0x1f }

  lemma {:induction false} NargsSurvive(credits: bv32, numargs: bv32)
    requires credits <= 256 && numargs <= 16
    ensures HiddenArgFullNargs(GenHiddenArg(credits, numargs)) == numargs + 1
  {
    assert ((numargs + 1) << 16) >> 16 == numargs + 1;
    assert credits >> 16 == 0;
  }

  lemma {:induction false} CreditsSurvive(credits: bv32, numargs: bv32)
    requires credits <= 256 && numargs <= 16
    ensures HiddenArgCredits(GenHiddenArg(credits, numargs)) == credits & 0xff
  {
    assert ((numargs + 1) << 16) & 0xff == 0;
  }

  /** The argument count always survives the packing; the credits survive exactly
      when they fit in eight bits. */
  lemma {:induction false} HiddenArgRoundTrip(credits: bv32, numargs: bv32)
    requires credits <= 256 && numargs <= 16
    ensures HiddenArgFullNargs(GenHiddenArg(credits, numargs)) == numargs + 1
    ensures HiddenArgCredits(GenHiddenArg(credits, numargs)) == credits <==> credits <= 255
    ensures credits == 256 ==> HiddenArgCredits(GenHiddenArg(credits, numargs)) == 0
  {
    NargsSurvive(credits, numargs);
    CreditsSurvive(credits, numargs);
  }

  // ----- the endpoint -----------------------------------------------------

  class Cep {
    var amRem: nat
    var flowCredit: nat
    var posted: nat
    var freelist: nat
    var recvd: seq<Msg>
    var active: seq<Running>
    var unreposted: nat

    ghost function View(): End
      reads this
    {
      End(amRem, flowCredit, posted, freelist, recvd, active, unreposted)
    }

    constructor (m: nat, spares: nat)
      ensures View() == InitEnd(Config(m, 0, false), spares)
    {
      amRem, flowCredit, posted, freelist, recvd, active, unreposted := m, 0, 0, spares + 2 * m, [], [], 0;
      new;
      var j := 0;
      while j < 2 * m
        invariant 0 <= j <= 2 * m && posted == j && freelist == spares + 2 * m - j
        invariant amRem == m && flowCredit == 0 && recvd == [] && active == [] && unreposted == 0
      {
        freelist := freelist - 1;
        posted := posted + 1;
        j := j + 1;
      }
    }

    /** Atomic load-and-clear of the banked credits, if room was reserved for them. */
    method GrabFlow(haveFlow: bool) returns (credits: nat)
      modifies `flowCredit
      ensures credits == Carried(old(View()), haveFlow) && View() == AfterCarry(old(View()), haveFlow)
    {
      credits := 0;
      if haveFlow {
        credits := flowCredit;
        flowCredit := 0;
      }
    }

    /** An IMMEDIATE request: one try at a credit. */
    method Request(haveFlow: bool) returns (sent: bool, msg: Msg)
      modifies this
      ensures sent == (old(amRem) > 0)
      ensures sent ==> View() == TakeCredit(old(View()), haveFlow) && msg == Msg(false, Carried(old(View()), haveFlow))
      ensures !sent ==> View() == old(View())
    {
      msg := Msg(false, 0);
      sent := amRem > 0;
      if sent {
        amRem := amRem - 1;
        var credits := GrabFlow(haveFlow);
        msg := Msg(false, credits);
      }
    }

    /** The flow-control part of packet processing. */
    method ProcessFlow(msg: Msg)
      modifies `amRem
      ensures amRem == old(amRem) + Grant(msg)
    {
      var credits := msg.carried % 256;
      if msg.isReply { credits := credits + 1; }
      if credits > 0 { amRem := amRem + credits; }
    }

    /** Start of the receive path for a reply: the buffer is reposted later. */
    method RcvReply(i: nat)
      requires i < |recvd|
      modifies this
      ensures View() == TakeReply(old(View()), i)
    {
      ProcessFlow(recvd[i]);
      recvd := Without(recvd, i);
      unreposted := unreposted + 1;
    }

    method RepostReply()
      requires unreposted > 0
      modifies this
      ensures View() == Repost(old(View()))
    {
      unreposted := unreposted - 1;
      posted := posted + 1;
    }

    /** Start of the receive path for a request: post a replacement, then run. */
    method RcvRequest(i: nat)
      requires i < |recvd| && !recvd[i].isReply
      modifies this
      ensures View() == TakeRequest(old(View()), i)
    {
      var msg := recvd[i];
      recvd := Without(recvd, i);
      if freelist > 0 {
        freelist := freelist - 1;
        posted := posted + 1;
        active := active + [Running(true, true, false)];
      } else {
        posted := posted + 1;
        active := active + [Running(true, false, false)];
      }
      ProcessFlow(msg);
    }

    /** A reply issued by the handler of request k. */
    method Reply(k: nat, haveFlow: bool) returns (msg: Msg)
      requires k < |active| && active[k].needReply
      modifies this
      ensures View() == Answer(old(View()), k, haveFlow) && msg == Msg(true, Carried(old(View()), haveFlow))
    {
      var credits := GrabFlow(haveFlow);
      msg := Msg(true, credits);
      active := active[k := active[k].(needReply := false)];
    }

    /** End of the receive path: bank the credit, or see that an acknowledgement
        has to be sent; a finished request's buffer is recycled. */
    method FinishRequest(k: nat, slack: nat)
      requires k < |active|
      modifies this
      ensures View() == Return(old(View()), k, slack)
    {
      if active[k].needReply {
        var seen := flowCredit;
        if seen >= slack {
          active := active[k := active[k].(acking := true)];
          return;
        }
        flowCredit := seen + 1;
      }
      Recycle(k);
    }

    /** The hidden acknowledgement: a reply like any other. */
    method SendAck(k: nat, haveFlow: bool) returns (msg: Msg)
      requires k < |active|
      modifies this
      ensures View() == Ack(old(View()), k, haveFlow) && msg == Msg(true, Carried(old(View()), haveFlow))
    {
      var credits := GrabFlow(haveFlow);
      msg := Msg(true, credits);
      Recycle(k);
    }

    method Recycle(k: nat)
      requires k < |active|
      modifies this
      ensures View() == Retire(old(View()), k)
    {
      if active[k].pinned { freelist := freelist + 1; }
      active := Without(active, k);
    }
  }

  // ----- both ends of a connection ----------------------------------------

  /** Two endpoint objects and what is in flight between them.  A step runs the
      method of one end and moves the message it leaves. */
  class Link {
    const a: Cep
    const b: Cep
    const slack: nat
    var toA: seq<Msg>
    var toB: seq<Msg>

    ghost predicate Valid() { a != b }

    ghost function View(): Pair
      reads this, a, b
    {
      Pair([a.View(), b.View()], [toA, toB])
    }

    constructor (m: nat, slack: nat, spares: nat)
      ensures Valid() && this.slack == slack && fresh(a) && fresh(b)
      ensures View() == InitPair(Config(m, slack, false), spares)
    {
      a := new Cep(m, spares);
      b := new Cep(m, spares);
      this.slack := slack;
      toA, toB := [], [];
    }

    function Side(e: nat): Cep { if e == 0 then a else b }

    method Post(e: nat, m: Msg)
      requires Valid() && e < 2
      modifies this
      ensures View() == Credits.Post(old(View()), e, m)
    {
      if e == 0 { toB := toB + [m]; } else { toA := toA + [m]; }
      ghost var was := old(View());
      assert View().fly == was.fly[1 - e := was.fly[1 - e] + [m]];
    }

    /** The network completes receive i at end e. */
    method Complete(e: nat, i: nat)
      requires Valid() && e < 2 && i < |View().fly[e]| && View().ends[e].posted > 0
      modifies this, a, b
      ensures var s := old(View());
              View() == Put(s, e, Receive(s.ends[e], s.fly[e][i])).(fly := s.fly[e := Without(s.fly[e], i)])
    {
      var cep := Side(e);
      var m := if e == 0 then toA[i] else toB[i];
      cep.posted := cep.posted - 1;
      cep.recvd := cep.recvd + [m];
      if e == 0 { toA := Without(toA, i); } else { toB := Without(toB, i); }
      ghost var s := old(View());
      SamePair(View(), Put(s, e, Receive(s.ends[e], s.fly[e][i])).(fly := s.fly[e := Without(s.fly[e], i)]));
    }

    /** One step of either end or of the network. */
    method Perform(t: Step, ghost c: Config)
      requires Valid() && c.slack == slack && Enabled(c, View(), t)
      modifies this, a, b
      ensures Valid() && View() == Apply(c, old(View()), t)
    {
      var cep := Side(t.e);
      ghost var s := View();
      match t {
        case SendRequest(e, flow) =>
          var sent, msg := cep.Request(flow);
          SamePair(View(), Put(s, e, TakeCredit(s.ends[e], flow)));
          Post(e, msg);
        case Arrive(e, i) => Complete(e, i);
        case ReapReply(e, i) =>
          cep.RcvReply(i);
          SamePair(View(), Put(s, e, TakeReply(s.ends[e], i)));
        case RepostReply(e) =>
          cep.RepostReply();
          SamePair(View(), Put(s, e, Repost(s.ends[e])));
        case ReapRequest(e, i) =>
          cep.RcvRequest(i);
          SamePair(View(), Put(s, e, TakeRequest(s.ends[e], i)));
        case HandlerReply(e, k, flow) =>
          var msg := cep.Reply(k, flow);
          SamePair(View(), Put(s, e, Answer(s.ends[e], k, flow)));
          Post(e, msg);
        case HandlerReturn(e, k) =>
          cep.FinishRequest(k, slack);
          SamePair(View(), Put(s, e, Return(s.ends[e], k, slack)));
        case Acknowledge(e, k, flow) =>
          var msg := cep.SendAck(k, flow);
          SamePair(View(), Put(s, e, Ack(s.ends[e], k, flow)));
          Post(e, msg);
      }
    }

    /** Any run of the protocol, on the objects: it ends where the protocol says, and
        from the start with a slack that fits every balance holds at its end. */
    method Execute(ts: seq<Step>, ghost c: Config, ghost goal: Pair)
      requires Valid() && c.slack == slack && Run(c, View(), ts, goal)
      modifies this, a, b
      ensures Valid() && View() == goal
      ensures Inv(c, old(View())) && slack <= 255 ==> Inv(c, View())
    {
      ghost var start := View();
      var i := 0;
      while i < |ts|
        invariant 0 <= i <= |ts| && Valid() && Run(c, View(), ts[i..], goal)
      {
        Perform(ts[i], c);
        assert ts[i..][1..] == ts[i + 1..];
        i := i + 1;
      }
      if Inv(c, start) && slack <= 255 { InvRun(c, start, ts, goal); }
    }
  }
}
