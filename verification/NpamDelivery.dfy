/** What arrives: the three ways to send within the process agree, a nested reply
    leaves the request's payload alone, and refused commits leave no trace. */
module NpamDelivery {
  import opened Dispatch
  import opened Npam
  import opened NpamClient
  import opened NpamSafety

  // ----- narrowing -----------------------------------------------------------------------

  /** A size survives the int parameter exactly when it is below 2^31 (or so large
      that it is the image of a negative int). */
  lemma {:induction false} NarrowExactIff(n: nat)
    requires n < 0x1_0000_0000_0000_0000
    ensures Narrow(n) == n <==> n < 0x8000_0000 || n >= 0xffff_ffff_8000_0000
  {
  }

  // ----- three ways to send ------------------------------------------------------------

  lemma {:induction false} ReadBack(mem: seq<Byte>, a: nat, bytes: seq<Byte>)
    requires a + |bytes| <= |mem|
    ensures Read(Write(mem, a, bytes), a, |bytes|) == bytes
  {
  }

  predicate Fits(mem: seq<Byte>, a: nat, n: nat) { a + n <= |mem| }

  /** The target of a message lies in memory. */
  predicate TargetFits(cfg: Config, s: State, isReq: bool, cat: Category, nbytes: nat, destAddr: Ptr)
    requires cfg.align > 0
  {
    && (cat == Medium ==> Fits(s.mem, if isReq then cfg.mallocAt else ReplyAt(cfg), nbytes))
    && (cat == Long ==> Fits(s.mem, destAddr, nbytes))
  }

  /** What Commit of a loopback Prepare shows the handler: the bytes that the client
      has in the descriptor's buffer at that moment, wherever that buffer is. */
  lemma {:induction false} CommitDelivers(cfg: Config, s: State, isReq: bool, p: Prep, c: CommitArgs)
    requires ConfigOk(cfg) && Buffers(cfg, s) && SdIs(cfg, Of(s, isReq), p, true) && p.dest.Local?
    requires CommitMatches(cfg, isReq, p, c) && !Of(s, isReq).running
    requires TargetFits(cfg, s, isReq, c.cat, c.nbytes, c.destAddr)
    ensures var r := DoCommit(cfg, s, isReq, c);
            && r.Next? && r.value.stack != []
            && r.value.log == s.log + [Ran(isReq, Local, cfg.handlers(c.handler), c.cat,
                                           Read(s.mem, Of(s, isReq).sd.addr, c.nbytes), c.args)]
            && (c.cat == Long ==> Read(r.value.mem, c.destAddr, c.nbytes) == Read(s.mem, Of(s, isReq).sd.addr, c.nbytes))
  {
    Buffered(cfg);
    var sd := Of(s, isReq).sd;
    var bytes := Read(s.mem, sd.addr, c.nbytes);
    if c.cat == Medium { ReadBack(s.mem, sd.voidP, bytes); } else { ReadBack(s.mem, c.destAddr, bytes); }
  }

  /** What a fixed-payload message shows the handler: its arguments, and the first
      Narrow(nbytes) bytes of the client's buffer unless it is a Short, which leaves
      memory alone. */
  lemma {:induction false} FixedDelivers(cfg: Config, s: State, isReq: bool, a: SendArgs)
    requires ConfigOk(cfg) && Buffers(cfg, s) && Side(cfg, Of(s, isReq), None, None, false) && !Of(s, isReq).running
    requires SendOk(cfg, isReq, Local, a) && !BadArg(cfg, isReq, Local, a)
    requires TargetFits(cfg, s, isReq, a.cat, Narrow(a.nbytes), a.destAddr)
    ensures var r := SendLocal(cfg, s, isReq, a);
            && r.Next? && r.value.stack != []
            && r.value.log == s.log + [Ran(isReq, Local, cfg.handlers(a.handler), a.cat,
                                           if a.cat == Short then [] else Read(s.mem, a.src, Narrow(a.nbytes)), a.args)]
            && (a.cat == Short ==> r.value.mem == s.mem)
            && (a.cat == Long ==> Read(r.value.mem, a.destAddr, Narrow(a.nbytes)) == Read(s.mem, a.src, Narrow(a.nbytes)))
  {
    Buffered(cfg);
    FixedInner(cfg, s, isReq, a);
    var bytes := Read(s.mem, a.src, Narrow(a.nbytes));
    if a.cat == Medium { ReadBack(s.mem, if isReq then cfg.mallocAt else ReplyAt(cfg), bytes); }
    else if a.cat == Long { ReadBack(s.mem, a.destAddr, bytes); }
  }

  /** Fixed payload, client buffer and library buffer: same bytes at the time of the
      call and same arguments give the same handler, token, payload and arguments,
      for requests and for replies, up to the int range. */
  lemma {:induction false} SendPathsAgree(cfg: Config, s: State, t: State, isReq: bool, p: Prep, c: CommitArgs, a: SendArgs)
    requires ConfigOk(cfg) && Buffers(cfg, s) && Buffers(cfg, t)
    requires SdIs(cfg, Of(s, isReq), p, true) && p.dest.Local? && CommitMatches(cfg, isReq, p, c) && !Of(s, isReq).running
    requires Side(cfg, Of(t, isReq), None, None, false) && !Of(t, isReq).running
    requires SendOk(cfg, isReq, Local, a) && !BadArg(cfg, isReq, Local, a)
    requires a.cat == c.cat && a.handler == c.handler && a.args == c.args && a.nbytes == c.nbytes && a.destAddr == c.destAddr
    requires c.nbytes < 0x8000_0000
    requires TargetFits(cfg, s, isReq, c.cat, c.nbytes, c.destAddr) && TargetFits(cfg, t, isReq, c.cat, c.nbytes, c.destAddr)
    requires Read(s.mem, Of(s, isReq).sd.addr, c.nbytes) == Read(t.mem, a.src, c.nbytes)
    ensures var x, y := DoCommit(cfg, s, isReq, c), SendLocal(cfg, t, isReq, a);
            && x.Next? && y.Next?
            && x.value.log[|s.log|..] == y.value.log[|t.log|..] && |x.value.log| == |s.log| + 1
            && (c.cat == Long ==> Read(x.value.mem, c.destAddr, c.nbytes) == Read(y.value.mem, c.destAddr, c.nbytes))
  {
    NarrowExactIff(c.nbytes);
    CommitDelivers(cfg, s, isReq, p, c);
    FixedDelivers(cfg, t, isReq, a);
  }

  // ----- refused commits -----------------------------------------------------------------

  /** The request half as another thread of control left it: same descriptor, same
      liveness, same buffer if there was one. */
  predicate SameRequest(s: State, t: State) {
    t.req.sd == s.req.sd && t.req.live == s.req.live && (s.req.buf != 0 ==> t.req.buf == s.req.buf)
  }

  /** A step inside the outermost poll, commit or handler, which stays open. */
  predicate Inner(v: View, act: Action) { v.ctx != [] && !act.EndPoll? && (act.Return? ==> |v.ctx| > 1) }

  ghost predicate InnerRun(cfg: Config, v: View, acts: seq<Action>)
    decreases |acts|
  {
    acts == [] || (Permitted(cfg, v, acts[0]) && Inner(v, acts[0]) && InnerRun(cfg, Advance(cfg, v, acts[0]), acts[1..]))
  }

  lemma {:induction false} ReplySideOnly(cfg: Config, s: State, act: Action)
    requires cfg.align > 0 && Step(cfg, s, act).Next?
    requires act.Store? || act.Arrive? || act.SendReply? || act.PrepareReply? || act.CommitReply? || act.CancelReply?
    ensures SameRequest(s, Step(cfg, s, act).value)
  {
    match act
    case SendReply(a) => SendReplySide(cfg, s, a);
    case PrepareReply(a) => PrepareReplySide(cfg, s, a);
    case CommitReply(c) => CommitReplySide(cfg, s, c);
    case _ =>
  }

  lemma {:induction false} SendReplySide(cfg: Config, s: State, a: SendArgs)
    requires cfg.align > 0 && InHandler(s) && DoSendReply(cfg, s, a).Next?
    ensures SameRequest(s, DoSendReply(cfg, s, a).value)
  {
  }

  lemma {:induction false} PrepareReplySide(cfg: Config, s: State, a: PrepArgs)
    requires cfg.align > 0 && InHandler(s) && DoPrepareReply(cfg, s, a).Next?
    ensures SameRequest(s, DoPrepareReply(cfg, s, a).value)
  {
  }

  lemma {:induction false} CommitReplySide(cfg: Config, s: State, c: CommitArgs)
    requires cfg.align > 0 && DoCommit(cfg, s, false, c).Next?
    ensures SameRequest(s, DoCommit(cfg, s, false, c).value)
  {
  }

  /** At most one event is added, and it is not the injection of a request. */
  predicate LogStep(s: State, t: State) {
    t.log == s.log || (|t.log| == |s.log| + 1 && t.log[..|s.log|] == s.log && !IsRequest(t.log[|s.log|]))
  }

  predicate IsRequest(e: Event) { e.Injected? && e.isReq }

  function Requests(log: seq<Event>): nat {
    if log == [] then 0 else Requests(log[..|log| - 1]) + (if IsRequest(log[|log| - 1]) then 1 else 0)
  }

  lemma {:induction false} ReplyLog(cfg: Config, s: State, act: Action)
    requires cfg.align > 0 && Step(cfg, s, act).Next?
    requires act.Store? || act.Arrive? || act.SendReply? || act.PrepareReply? || act.CommitReply? || act.CancelReply? || act.Return?
    ensures LogStep(s, Step(cfg, s, act).value)
  {
    match act
    case SendReply(a) => SendReplyLog(cfg, s, a);
    case PrepareReply(a) => PrepareReplyLog(cfg, s, a);
    case CommitReply(c) => CommitReplyLog(cfg, s, c);
    case _ =>
  }

  lemma {:induction false} SendReplyLog(cfg: Config, s: State, a: SendArgs)
    requires cfg.align > 0 && InHandler(s) && DoSendReply(cfg, s, a).Next?
    ensures LogStep(s, DoSendReply(cfg, s, a).value)
  {
  }

  lemma {:induction false} PrepareReplyLog(cfg: Config, s: State, a: PrepArgs)
    requires cfg.align > 0 && InHandler(s) && DoPrepareReply(cfg, s, a).Next?
    ensures DoPrepareReply(cfg, s, a).value.log == s.log
  {
  }

  lemma {:induction false} CommitReplyLog(cfg: Config, s: State, c: CommitArgs)
    requires cfg.align > 0 && DoCommit(cfg, s, false, c).Next?
    ensures LogStep(s, DoCommit(cfg, s, false, c).value)
  {
  }

  lemma {:induction false} ReturnSide(cfg: Config, s: State)
    requires cfg.align > 0 && InHandler(s) && DoReturn(s).Next? && (!Top(s).isReq || Top(s).after.AfterNetwork?)
    ensures SameRequest(s, DoReturn(s).value)
  {
  }

  /** An inner return is that of a handler which holds nothing on the request side. */
  lemma {:induction false} InnerReturn(cfg: Config, v: View, s: State)
    requires cfg.align > 0 && Consistent(cfg, v, s) && Permitted(cfg, v, Return) && Inner(v, Return)
    ensures InHandler(s) && (!Top(s).isReq || Top(s).after.AfterNetwork?)
  {
  }

  lemma {:induction false} InnerStep(cfg: Config, v: View, s: State, act: Action)
    requires ConfigOk(cfg) && Consistent(cfg, v, s) && Permitted(cfg, v, act) && Inner(v, act) && Step(cfg, s, act).Next?
    ensures SameRequest(s, Step(cfg, s, act).value) && LogStep(s, Step(cfg, s, act).value)
  {
    InnerIsReplySide(cfg, v, act);
    ReplyLog(cfg, s, act);
    if act.Return? {
      InnerReturn(cfg, v, s);
      ReturnSide(cfg, s);
    } else {
      ReplySideOnly(cfg, s, act);
    }
  }

  lemma {:induction false} InnerIsReplySide(cfg: Config, v: View, act: Action)
    requires Permitted(cfg, v, act) && Inner(v, act)
    ensures act.Store? || act.Arrive? || act.SendReply? || act.PrepareReply? || act.CommitReply? || act.CancelReply? || act.Return?
  {
  }

  /** Whatever handlers do inside a call, they leave the request side alone and
      inject no request. */
  lemma {:induction false} InnerRunKeepsRequest(cfg: Config, v: View, s: State, acts: seq<Action>)
    requires ConfigOk(cfg) && Consistent(cfg, v, s) && InnerRun(cfg, v, acts)
    ensures Run(cfg, s, acts).Next? && SameRequest(s, Run(cfg, s, acts).value)
    ensures Requests(Run(cfg, s, acts).value.log) == Requests(s.log)
    ensures Disciplined(cfg, v, acts) && Consistent(cfg, Views(cfg, v, acts), Run(cfg, s, acts).value)
    decreases |acts|
  {
    if acts != [] {
      StepConsistent(cfg, v, s, acts[0]);
      InnerStep(cfg, v, s, acts[0]);
      InnerRunKeepsRequest(cfg, Advance(cfg, v, acts[0]), Step(cfg, s, acts[0]).value, acts[1..]);
    }
  }

  lemma {:induction false} RunCons(cfg: Config, s: State, act: Action, rest: seq<Action>)
    requires cfg.align > 0
    ensures Run(cfg, s, [act] + rest) == Then(cfg, Step(cfg, s, act), rest)
  {
    assert ([act] + rest)[1..] == rest;
  }

  /** Goes on from a result, if there is one. */
  function Then(cfg: Config, r: Result, acts: seq<Action>): Result
    requires cfg.align > 0
  {
    if r.Next? then Run(cfg, r.value, acts) else r
  }

  lemma {:induction false} RunAppend(cfg: Config, s: State, a: seq<Action>, b: seq<Action>)
    requires cfg.align > 0
    ensures Run(cfg, s, a + b) == Then(cfg, Run(cfg, s, a), b)
    decreases |a|, 1
  {
    if a == [] {
      assert a + b == b;
    } else {
      RunAppendStep(cfg, s, Step(cfg, s, a[0]), a, b);
    }
  }

  lemma {:induction false} RunAppendStep(cfg: Config, s: State, r: Result, a: seq<Action>, b: seq<Action>)
    requires cfg.align > 0 && a != [] && r == Step(cfg, s, a[0])
    ensures Run(cfg, s, a + b) == Then(cfg, Run(cfg, s, a), b)
    decreases |a|, 0
  {
    var rest := a[1..];
    assert a == [a[0]] + rest && a + b == [a[0]] + (rest + b);
    RunCons(cfg, s, a[0], rest);
    RunCons(cfg, s, a[0], rest + b);
    if r.Next? { RunAppend(cfg, r.value, rest, b); }
  }

  /** A Commit of a request for the network, with the handlers that run in its poll. */
  datatype Attempt = Attempt(commit: CommitArgs, inner: seq<Action>)

  function AttemptActs(a: Attempt): seq<Action> { [CommitRequest(a.commit)] + a.inner + [EndPoll] }

  /** The attempt is disciplined, and all its handlers have returned at the end. */
  ghost predicate Proper(cfg: Config, v: View, a: Attempt) {
    && AtTop(v) && v.req.Some? && v.req.value.dest.Remote? && CommitMatches(cfg, true, v.req.value, a.commit)
    && InnerRun(cfg, Advance(cfg, v, CommitRequest(a.commit)), a.inner)
    && Disciplined(cfg, Advance(cfg, v, CommitRequest(a.commit)), a.inner)
    && Views(cfg, Advance(cfg, v, CommitRequest(a.commit)), a.inner) == View(None, [InCommit(v.req.value, a.commit)])
  }

  /** The state when the poll of a Commit ends. */
  lemma {:induction false} AttemptMiddle(cfg: Config, v: View, s: State, a: Attempt) returns (m: State)
    requires ConfigOk(cfg) && Related(cfg, v, s) && Proper(cfg, v, a)
    ensures Run(cfg, s, AttemptActs(a)) == Step(cfg, m, EndPoll)
    ensures Related(cfg, View(None, [InCommit(v.req.value, a.commit)]), m)
    ensures m.req.sd == s.req.sd.(active := false) && m.req.live == s.req.live && (s.req.buf != 0 ==> m.req.buf == s.req.buf)
    ensures Requests(m.log) == Requests(s.log)
  {
    var act := CommitRequest(a.commit);
    StepGood(cfg, v, s, act);
    var s1, v1 := Step(cfg, s, act).value, Advance(cfg, v, act);
    InnerRunKeepsRequest(cfg, v1, s1, a.inner);
    m := Run(cfg, s1, a.inner).value;
    var rest := a.inner + [EndPoll];
    assert AttemptActs(a) == [act] + rest;
    RunCons(cfg, s, act, rest);
    RunAppend(cfg, s1, a.inner, [EndPoll]);
    RunOne(cfg, m, EndPoll);
  }

  lemma {:induction false} RunOne(cfg: Config, s: State, act: Action)
    requires cfg.align > 0
    ensures Run(cfg, s, [act]) == Step(cfg, s, act)
  {
    if Step(cfg, s, act).Next? { assert Run(cfg, Step(cfg, s, act).value, []) == Step(cfg, s, act); }
  }

  lemma {:induction false} RefusedAttempt(cfg: Config, v: View, s: State, a: Attempt)
    requires ConfigOk(cfg) && Related(cfg, v, s) && Proper(cfg, v, a) && !a.commit.accepted
    ensures var r := Run(cfg, s, AttemptActs(a));
            r.Next? && Related(cfg, v, r.value) && SameRequest(s, r.value) && Requests(r.value.log) == Requests(s.log)
  {
    var m := AttemptMiddle(cfg, v, s, a);
    StepGood(cfg, View(None, [InCommit(v.req.value, a.commit)]), m, EndPoll);
    assert View(None, [InCommit(v.req.value, a.commit)]).ctx[..0] == [];
    assert Advance(cfg, View(None, [InCommit(v.req.value, a.commit)]), EndPoll) == v;
  }

  function AllActs(attempts: seq<Attempt>): seq<Action> {
    if attempts == [] then [] else AttemptActs(attempts[0]) + AllActs(attempts[1..])
  }

  /** However many commits the conduit refuses, and whatever handlers run meanwhile,
      the descriptor, its buffer and the number of requests sent are as after the
      Prepare. */
  lemma {:induction false} RefusalsLeaveNoTrace(cfg: Config, v: View, s: State, attempts: seq<Attempt>)
    requires ConfigOk(cfg) && Related(cfg, v, s)
    requires forall k :: 0 <= k < |attempts| ==> Proper(cfg, v, attempts[k]) && !attempts[k].commit.accepted
    ensures var r := Run(cfg, s, AllActs(attempts));
            r.Next? && Related(cfg, v, r.value) && SameRequest(s, r.value) && Requests(r.value.log) == Requests(s.log)
    decreases |attempts|
  {
    if attempts != [] {
      RefusedAttempt(cfg, v, s, attempts[0]);
      var t := Run(cfg, s, AttemptActs(attempts[0])).value;
      RefusalsLeaveNoTrace(cfg, v, t, attempts[1..]);
      RunAppend(cfg, s, AttemptActs(attempts[0]), AllActs(attempts[1..]));
    }
  }

  /** After any number of refusals an accepted Commit injects exactly one request,
      with the parameters of the Prepare, and releases the buffer. */
  lemma {:induction false} RefusalsThenCommit(cfg: Config, v: View, s: State, attempts: seq<Attempt>, a: Attempt)
    requires ConfigOk(cfg) && Related(cfg, v, s)
    requires forall k :: 0 <= k < |attempts| ==> Proper(cfg, v, attempts[k]) && !attempts[k].commit.accepted
    requires Proper(cfg, v, a) && a.commit.accepted
    ensures var r := Run(cfg, s, AllActs(attempts) + AttemptActs(a));
            var p, c := v.req.value, a.commit;
            && r.Next? && !r.value.req.live && Idle(r.value.req.sd) && Requests(r.value.log) == Requests(s.log) + 1
            && var e := r.value.log[|r.value.log| - 1];
               && IsRequest(e) && e.to == p.dest && e.handler == c.handler && e.args == c.args && e.category == p.cat
               && e.payload == Read(r.value.mem, s.req.sd.addr, c.nbytes) && e.flags == p.flags.(immediate := c.immediate, leastClient := false, leastAlloc := false)
               && e.lc == (if p.lc.LcNull? then LcNow else p.lc)
  {
    RefusalsLeaveNoTrace(cfg, v, s, attempts);
    var t := Run(cfg, s, AllActs(attempts)).value;
    RunAppend(cfg, s, AllActs(attempts), AttemptActs(a));
    var m := AttemptMiddle(cfg, v, t, a);
    AcceptedEnd(cfg, v.req.value, a.commit, m);
  }

  lemma {:induction false} AcceptedEnd(cfg: Config, p: Prep, c: CommitArgs, m: State)
    requires ConfigOk(cfg) && Related(cfg, View(None, [InCommit(p, c)]), m) && CommitMatches(cfg, true, p, c) && c.accepted
    ensures var r := Step(cfg, m, EndPoll);
            && r.Next? && !r.value.req.live && Idle(r.value.req.sd) && r.value.mem == m.mem
            && r.value.log == m.log + [Injected(true, p.dest, c.handler, p.cat, Read(m.mem, m.req.sd.addr, c.nbytes),
                                                DestAddrOf(c.cat, c.destAddr), c.args, if p.lc.LcNull? then LcNow else p.lc,
                                                Cleared(p.flags).(immediate := c.immediate))]
            && Requests(r.value.log) == Requests(m.log) + 1
  {
    var r := Step(cfg, m, EndPoll);
    assert r.value.log[..|r.value.log| - 1] == m.log;
  }

  /** After any number of refusals Cancel injects nothing and releases the buffer. */
  lemma {:induction false} RefusalsThenCancel(cfg: Config, v: View, s: State, attempts: seq<Attempt>)
    requires ConfigOk(cfg) && Related(cfg, v, s) && AtTop(v) && v.req.Some?
    requires forall k :: 0 <= k < |attempts| ==> Proper(cfg, v, attempts[k]) && !attempts[k].commit.accepted
    ensures var r := Run(cfg, s, AllActs(attempts) + [CancelRequest(v.req.value.cat)]);
            && r.Next? && !r.value.req.live && Idle(r.value.req.sd) && Requests(r.value.log) == Requests(s.log)
  {
    RefusalsLeaveNoTrace(cfg, v, s, attempts);
    var t, act := Run(cfg, s, AllActs(attempts)).value, CancelRequest(v.req.value.cat);
    RunAppend(cfg, s, AllActs(attempts), [act]);
    RunOne(cfg, t, act);
    StepGood(cfg, v, t, act);
  }

  /** A refused commit of a reply changes nothing at all. */
  lemma {:induction false} RefusedReplyIsNoOp(cfg: Config, v: View, s: State, c: CommitArgs)
    requires ConfigOk(cfg) && Related(cfg, v, s) && Permitted(cfg, v, CommitReply(c))
    requires Here(v).rep.value.dest.Remote? && !c.accepted
    ensures Step(cfg, s, CommitReply(c)) == Next(s)
  {
    RequestTop(cfg, v, s);
  }

  // ----- the request's payload during its handler ------------------------------------------

  /** The range does not touch the request buffer. */
  predicate Clear(cfg: Config, at: nat, n: nat) { n == 0 || at + n <= cfg.mallocAt || at >= cfg.mallocAt + cfg.maxMedium }

  /** The client itself keeps its hands off the request buffer. */
  predicate Respects(cfg: Config, act: Action) {
    match act
    case Store(at, bytes) => Clear(cfg, at, |bytes|)
    case SendReply(a) => a.cat == Long ==> Clear(cfg, a.destAddr, Narrow(a.nbytes))
    case CommitReply(c) => c.cat == Long ==> Clear(cfg, c.destAddr, c.nbytes)
    case _ => true
  }

  predicate SamePayload(cfg: Config, s: State, t: State) {
    |t.mem| == |s.mem| && forall i :: cfg.mallocAt <= i < cfg.mallocAt + cfg.maxMedium && i < |s.mem| ==> t.mem[i] == s.mem[i]
  }

  lemma {:induction false} InnerStepKeepsPayload(cfg: Config, v: View, s: State, act: Action)
    requires ConfigOk(cfg) && Consistent(cfg, v, s) && Permitted(cfg, v, act) && Inner(v, act) && Respects(cfg, act)
    requires Step(cfg, s, act).Next?
    ensures SamePayload(cfg, s, Step(cfg, s, act).value)
  {
    Buffered(cfg);
    InnerIsReplySide(cfg, v, act);
    match act
    case SendReply(a) => SendReplyPayload(cfg, s, a);
    case PrepareReply(a) => PrepareReplyMem(cfg, s, a);
    case CommitReply(c) =>
      HeldReply(cfg, v, s);
      CommitReplyPayload(cfg, s, Here(v).rep.value, c);
    case _ => OtherActMem(cfg, s, act);
  }

  lemma {:induction false} HeldReply(cfg: Config, v: View, s: State)
    requires cfg.align > 0 && Consistent(cfg, v, s) && InRequestHandler(v) && Here(v).rep.Some?
    ensures SdIs(cfg, s.rep, Here(v).rep.value, true)
  {
  }

  lemma {:induction false} OtherActMem(cfg: Config, s: State, act: Action)
    requires cfg.align > 0 && Step(cfg, s, act).Next? && Respects(cfg, act)
    requires act.Store? || act.Arrive? || act.CancelReply? || act.Return?
    ensures SamePayload(cfg, s, Step(cfg, s, act).value)
  {
  }

  lemma {:induction false} SendReplyPayload(cfg: Config, s: State, a: SendArgs)
    requires cfg.align > 0 && cfg.mallocAt > 0 && InHandler(s) && DoSendReply(cfg, s, a).Next? && Buffers(cfg, s)
    requires ReplyAt(cfg) >= cfg.mallocAt + cfg.maxMedium && Respects(cfg, SendReply(a))
    ensures SamePayload(cfg, s, DoSendReply(cfg, s, a).value)
  {
  }

  lemma {:induction false} PrepareReplyMem(cfg: Config, s: State, a: PrepArgs)
    requires cfg.align > 0 && InHandler(s) && DoPrepareReply(cfg, s, a).Next?
    ensures DoPrepareReply(cfg, s, a).value.mem == s.mem
  {
  }

  lemma {:induction false} CommitReplyPayload(cfg: Config, s: State, p: Prep, c: CommitArgs)
    requires cfg.align > 0 && cfg.mallocAt > 0 && DoCommit(cfg, s, false, c).Next? && Buffers(cfg, s) && SdIs(cfg, s.rep, p, true)
    requires ReplyAt(cfg) >= cfg.mallocAt + cfg.maxMedium && Respects(cfg, CommitReply(c))
    ensures SamePayload(cfg, s, DoCommit(cfg, s, false, c).value)
  {
  }

  ghost predicate AllRespect(cfg: Config, acts: seq<Action>) { forall k :: 0 <= k < |acts| ==> Respects(cfg, acts[k]) }

  /** From the start of a request handler to its return the payload it was given
      stays as it was, through any replies it sends and the reply handlers they run,
      unless the client itself writes there. */
  lemma {:induction false} NestedRepliesKeepPayload(cfg: Config, v: View, s: State, acts: seq<Action>)
    requires ConfigOk(cfg) && Consistent(cfg, v, s) && InnerRun(cfg, v, acts) && AllRespect(cfg, acts)
    ensures Run(cfg, s, acts).Next? && SamePayload(cfg, s, Run(cfg, s, acts).value)
    decreases |acts|
  {
    if acts != [] {
      StepConsistent(cfg, v, s, acts[0]);
      assert Respects(cfg, acts[0]);
      InnerStepKeepsPayload(cfg, v, s, acts[0]);
      assert AllRespect(cfg, acts[1..]);
      NestedRepliesKeepPayload(cfg, Advance(cfg, v, acts[0]), Step(cfg, s, acts[0]).value, acts[1..]);
    }
  }
}
