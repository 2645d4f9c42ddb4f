/** A disciplined client never meets an assertion or a fatal error, whatever the
    network does, and the descriptors and buffers are where its view says. */
module NpamSafety {
  import opened Dispatch
  import opened Npam
  import opened NpamClient

  /** The step goes through and the state is consistent again. */
  ghost predicate Good(cfg: Config, v: View, act: Action, r: Result)
    requires cfg.align > 0 && Permitted(cfg, v, act)
  {
    r.Next? && Consistent(cfg, Advance(cfg, v, act), r.value)
  }

  /** For every maximum size and alignment both buffers are aligned, and the reply
      buffer begins after the last byte of the request buffer, with less than one
      alignment wasted in between. */
  lemma {:induction false} Buffered(cfg: Config)
    requires ConfigOk(cfg)
    ensures cfg.mallocAt % cfg.align == 0 && ReplyAt(cfg) % cfg.align == 0
    ensures cfg.mallocAt + cfg.maxMedium <= ReplyAt(cfg) < cfg.mallocAt + cfg.maxMedium + cfg.align
  {
    Padding(cfg.maxMedium, cfg.align, cfg.mallocAt);
  }

  /** Rounding up, as plain arithmetic. */
  lemma {:induction false} Padding(n: nat, align: nat, at: nat)
    requires align > 0 && at % align == 0
    ensures n <= AlignUp(n, align) < n + align && (at + AlignUp(n, align)) % align == 0
  {
    var up := n + align - 1;
    var q, m := up / align, at / align;
    assert up == q * align + up % align && at == m * align;
    assert m * align + q * align == (m + q) * align;
    MultipleMod(m + q, align);
  }

  lemma {:induction false} MultipleMod(k: nat, n: nat)
    requires n > 0
    ensures (k * n) % n == 0
  {
    var q, r := (k * n) / n, (k * n) % n;
    assert k * n == q * n + r;
    AtLeastOnce(k - q, n);
  }

  lemma {:induction false} AtLeastOnce(d: int, n: nat)
    ensures d >= 1 ==> d * n >= n
    ensures d <= 0 ==> d * n <= 0
  {
  }

  // ----- inside a request handler ------------------------------------------------------

  /** What the relation says while a request handler runs. */
  lemma {:induction false} RequestTop(cfg: Config, v: View, s: State)
    requires cfg.align > 0 && Consistent(cfg, v, s) && InRequestHandler(v)
    ensures v.req.None? && s.stack != [] && Top(s).Handler? && ReqFrame(s.req.buf, Here(v), Top(s))
    ensures s.req.running && !s.rep.running && !s.req.sd.active && Side(cfg, s.rep, Here(v).rep, None, false)
    ensures !Here(v).source.FromNetwork? ==> |v.ctx| == 1 && Top(s).replyIssued == (Here(v).replies > 0 || Here(v).rep.Some?)
  {
  }

  /** The request half is as it was, except that the buffers may now exist. */
  predicate SameReq(s: State, t: State) {
    && t.req == s.req.(buf := t.req.buf)
    && (s.req.buf != 0 ==> t.req.buf == s.req.buf && t.rep.buf == s.rep.buf)
  }

  /** Only the running handler's frame and the reply half changed. */
  lemma {:induction false} TopChanged(cfg: Config, v: View, s: State, c: Ctx, t: State, f: Frame)
    requires cfg.align > 0 && Consistent(cfg, v, s) && InRequestHandler(v) && s.stack != []
    requires t.stack == s.stack[..|s.stack| - 1] + [f] && SameReq(s, t) && !t.rep.running && Buffers(cfg, t)
    requires c.InRequest? && c.source == Here(v).source && ReqFrame(t.req.buf, c, f)
    requires !c.source.FromNetwork? ==> f.replyIssued == (c.replies > 0 || c.rep.Some?)
    requires Side(cfg, t.rep, c.rep, None, false)
    ensures Consistent(cfg, Become(v, c), t)
  {
    var v' := Become(v, c);
    if |v.ctx| == 2 {
      assert v'.ctx == [v.ctx[0], c] && t.stack == [s.stack[0], f];
    } else {
      assert v'.ctx == [c] && t.stack == [f];
    }
  }

  /** A reply handler has been entered on top of the request handler. */
  lemma {:induction false} ReplyEntered(cfg: Config, v: View, s: State, src: Source, t: State)
    requires cfg.align > 0 && Consistent(cfg, v, s) && InRequestHandler(v) && |v.ctx| == 1
    requires v.ctx[0].replies == 0 && !src.FromNetwork?
    requires |t.stack| == 2 && t.stack[0] == s.stack[0].(replies := 1)
    requires RepFrame(t.rep.buf, InReply(src), t.stack[1]) && (src.FromFixed? || t.stack[0].replyIssued)
    requires SameReq(s, t) && t.rep.running && Buffers(cfg, t)
    requires Side(cfg, t.rep, None, if src.FromPrepared? then Some(src.prep) else None, src.FromFixed? && src.cat == Medium)
    ensures Consistent(cfg, Enter(Become(v, Replied(Here(v))), InReply(src)), t)
  {
    var v' := Enter(Become(v, Replied(Here(v))), InReply(src));
    assert v'.ctx == [Replied(v.ctx[0]), InReply(src)];
  }

  lemma {:induction false} Storing(cfg: Config, v: View, s: State, act: Action)
    requires ConfigOk(cfg) && Consistent(cfg, v, s) && Permitted(cfg, v, act) && act.Store?
    ensures Good(cfg, v, act, Step(cfg, s, act))
  {
  }

  /** The client starts a library call that polls. */
  lemma {:induction false} PollEntered(cfg: Config, v: View, s: State, call: Call)
    requires cfg.align > 0 && Consistent(cfg, v, s) && AtTop(v) && v.req.None?
    requires PollFrame(cfg, v, InPoll(call), Polling(call))
    ensures Consistent(cfg, Enter(v, InPoll(call)), Push(s, Polling(call)))
  {
    assert v.ctx + [InPoll(call)] == [InPoll(call)] && s.stack + [Polling(call)] == [Polling(call)];
  }

  lemma {:induction false} StartingPoll(cfg: Config, v: View, s: State, act: Action)
    requires ConfigOk(cfg) && Consistent(cfg, v, s) && Permitted(cfg, v, act) && (act.Poll? || act.PrepareRequest?)
    ensures Good(cfg, v, act, Step(cfg, s, act))
  {
    PollEntered(cfg, v, s, if act.Poll? then JustPoll else Preparing(act.prep));
  }

  lemma {:induction false} SendingRequest(cfg: Config, v: View, s: State, act: Action)
    requires ConfigOk(cfg) && Consistent(cfg, v, s) && Permitted(cfg, v, act) && act.SendRequest?
    ensures Good(cfg, v, act, Step(cfg, s, act))
  {
    if !BadArg(cfg, true, act.send.dest, act.send) { PollEntered(cfg, v, s, Sending(act.send)); }
  }

  lemma {:induction false} Arriving(cfg: Config, v: View, s: State, act: Action)
    requires ConfigOk(cfg) && Consistent(cfg, v, s) && Permitted(cfg, v, act) && act.Arrive?
    ensures Good(cfg, v, act, Step(cfg, s, act))
  {
  }

  lemma {:induction false} CancellingRequest(cfg: Config, v: View, s: State, act: Action)
    requires ConfigOk(cfg) && Consistent(cfg, v, s) && Permitted(cfg, v, act) && act.CancelRequest?
    ensures Good(cfg, v, act, Step(cfg, s, act))
  {
  }

  /** Cancel gives back whatever the Prepare held, and the token. */
  lemma {:induction false} CancelFrees(cfg: Config, s: State, p: Prep)
    requires SdIs(cfg, s.rep, p, true) && s.rep.live == UsesBuf(p)
    requires s.stack != [] && Top(s).Handler? && (p.dest.Local? ==> Top(s).replyIssued)
    ensures var r, f := DoCancel(s, false, p.cat), Top(s);
            && r.Next? && r.value.req == s.req && Side(cfg, r.value.rep, None, None, false)
            && r.value.rep.buf == s.rep.buf && r.value.rep.running == s.rep.running
            && r.value.stack == s.stack[..|s.stack| - 1] + [if p.dest.Local? then f.(replyIssued := false) else f]
  {
  }

  lemma {:induction false} CancellingReply(cfg: Config, v: View, s: State, act: Action)
    requires ConfigOk(cfg) && Consistent(cfg, v, s) && Permitted(cfg, v, act) && act.CancelReply?
    ensures Good(cfg, v, act, Step(cfg, s, act))
  {
    RequestTop(cfg, v, s);
    CancelFrees(cfg, s, Here(v).rep.value);
    var t := Step(cfg, s, act).value;
    var f := Top(s);
    TopChanged(cfg, v, s, Here(v).(rep := None), t, if f.from.Local? then f.(replyIssued := false) else f);
  }

  lemma {:induction false} CommittingRequest(cfg: Config, v: View, s: State, act: Action)
    requires ConfigOk(cfg) && Consistent(cfg, v, s) && Permitted(cfg, v, act) && act.CommitRequest?
    ensures Good(cfg, v, act, Step(cfg, s, act))
  {
    if v.req.value.dest.Local? { CommittingRequestLocal(cfg, v, s, act); } else { CommittingRequestRemote(cfg, v, s, act); }
  }

  lemma {:induction false} CommittingRequestRemote(cfg: Config, v: View, s: State, act: Action)
    requires ConfigOk(cfg) && Consistent(cfg, v, s) && Permitted(cfg, v, act) && act.CommitRequest? && v.req.value.dest.Remote?
    ensures Good(cfg, v, act, Step(cfg, s, act))
  {
    assert v.ctx + [InCommit(v.req.value, act.commit)] == [InCommit(v.req.value, act.commit)];
  }

  lemma {:induction false} CommittingRequestLocal(cfg: Config, v: View, s: State, act: Action)
    requires ConfigOk(cfg) && Consistent(cfg, v, s) && Permitted(cfg, v, act) && act.CommitRequest? && v.req.value.dest.Local?
    ensures Good(cfg, v, act, Step(cfg, s, act))
  {
    assert v.ctx + [InRequest(FromPrepared(v.req.value), 0, None)] == [InRequest(FromPrepared(v.req.value), 0, None)];
    CommitLocal(cfg, s, v.req.value, act.commit);
  }

  /** What the Commit of a loopback request leaves behind. */
  lemma {:induction false} CommitLocal(cfg: Config, s: State, p: Prep, c: CommitArgs)
    requires ConfigOk(cfg) && Buffers(cfg, s) && SdIs(cfg, s.req, p, true) && p.dest.Local? && CommitMatches(cfg, true, p, c)
    requires s.stack == [] && !s.req.running
    ensures var r := DoCommit(cfg, s, true, c);
            && r.Next? && r.value.req == s.req.(sd := s.req.sd.(active := false), running := true) && r.value.rep == s.rep
            && |r.value.stack| == 1 && !r.value.stack[0].Polling? && !r.value.stack[0].replyIssued
            && ReqFrame(s.req.buf, InRequest(FromPrepared(p), 0, None), r.value.stack[0])
  {
    Buffered(cfg);
  }

  /** A loopback handler's return frees what its message held. */
  lemma {:induction false} FinishFrees(cfg: Config, s: State, isReq: bool, src: Source, after: After)
    requires !src.FromNetwork? && AfterIs(Of(s, isReq).buf, isReq, src, after)
    requires Side(cfg, Of(s, isReq), None, if src.FromPrepared? then Some(src.prep) else None, src.FromFixed? && src.cat == Medium)
    requires after.postReply ==> s.stack != [] && Top(s).Handler?
    ensures var r := Finish(s, isReq, after);
            && r.Next? && Side(cfg, Of(r.value, isReq), None, None, false)
            && Of(r.value, isReq).buf == Of(s, isReq).buf && Of(r.value, isReq).running == Of(s, isReq).running
            && Of(r.value, !isReq) == Of(s, !isReq)
            && r.value.stack == if after.postReply then WithTop(s, Top(s).(replyIssued := true)).stack else s.stack
  {
  }

  lemma {:induction false} Returning(cfg: Config, v: View, s: State, act: Action)
    requires ConfigOk(cfg) && Consistent(cfg, v, s) && Permitted(cfg, v, act) && act.Return?
    ensures Good(cfg, v, act, Step(cfg, s, act))
  {
    if Here(v).source.FromNetwork? { ReturningNetwork(cfg, v, s); }
    else if Here(v).InRequest? { ReturningRequest(cfg, v, s); }
    else { ReturningReply(cfg, v, s); }
  }

  lemma {:induction false} ReturningNetwork(cfg: Config, v: View, s: State)
    requires ConfigOk(cfg) && Consistent(cfg, v, s) && Permitted(cfg, v, Return) && Here(v).source.FromNetwork?
    ensures Good(cfg, v, Return, Step(cfg, s, Return))
  {
    assert Leave(v).ctx == [v.ctx[0]] && Pop(s).stack == [s.stack[0]];
  }

  lemma {:induction false} ReturningRequest(cfg: Config, v: View, s: State)
    requires ConfigOk(cfg) && Consistent(cfg, v, s) && Permitted(cfg, v, Return) && Here(v).InRequest? && !Here(v).source.FromNetwork?
    ensures Good(cfg, v, Return, Step(cfg, s, Return))
  {
    var s1 := LeaveHandler(Pop(s), true).value;
    assert Leave(v).ctx == [] && s1.stack == [];
    FinishFrees(cfg, s1, true, Here(v).source, Top(s).after);
  }

  lemma {:induction false} ReturningReply(cfg: Config, v: View, s: State)
    requires ConfigOk(cfg) && Consistent(cfg, v, s) && Permitted(cfg, v, Return) && Here(v).InReply? && !Here(v).source.FromNetwork?
    ensures Good(cfg, v, Return, Step(cfg, s, Return))
  {
    var s1 := LeaveHandler(Pop(s), false).value;
    assert Leave(v).ctx == [v.ctx[0]] && s1.stack == [s.stack[0]];
    FinishFrees(cfg, s1, false, Here(v).source, Top(s).after);
  }

  // ----- what Prepare grants -------------------------------------------------------

  /** Every Prepare that passes its checks grants a size between least and most, and
      no more than the buffer when the buffer is the library's. */
  lemma {:induction false} GrantWithinBounds(cfg: Config, isReq: bool, dest: Dest, a: PrepArgs)
    requires ConfigOk(cfg) && a.cat != Short && PrepOk(cfg, isReq, dest, a)
    ensures var p := Grant(cfg, isReq, dest, a);
            a.least <= p.size <= a.most && Granted(cfg, p)
  {
    var f := CheckFlags(a.cbuf, a.flags);
    assert LimitAt(cfg, isReq, a.cat, dest, a.lc, f, a.nargs);
    assert LimitAt(cfg, isReq, a.cat, dest, a.lc, LimitFlags(a.cbuf, Cleared(a.flags)), a.nargs);
    assert Cleared(f) == Cleared(a.flags);
  }

  /** Only this half and the buffers' addresses changed. */
  predicate OnlySide(s: State, t: State, isReq: bool) {
    && t.mem == s.mem && t.stack == s.stack && t.log == s.log && Of(t, isReq).running == Of(s, isReq).running
    && Of(t, !isReq) == Of(s, !isReq).(buf := Of(t, !isReq).buf)
    && (s.req.buf != 0 ==> t.req.buf == s.req.buf && t.rep.buf == s.rep.buf)
  }

  predicate Ready(cfg: Config, s: State, isReq: bool)
    requires cfg.align > 0
  {
    && Buffers(cfg, s) && !Of(s, isReq).live
    && Of(s, isReq).sd.active && Of(s, isReq).sd.gexBuf == 0 && Of(s, isReq).sd.toFree == 0
  }

  ghost predicate Granting(cfg: Config, s: State, isReq: bool, p: Prep, r: Result)
    requires cfg.align > 0
  {
    && r.Next? && OnlySide(s, r.value, isReq) && Buffers(cfg, r.value) && SdIs(cfg, Of(r.value, isReq), p, true)
    && Of(r.value, isReq).live == UsesBuf(p)
  }

  lemma {:induction false} FinishPrepareGood(cfg: Config, s: State, isReq: bool, dest: Dest, a: PrepArgs)
    requires ConfigOk(cfg) && Ready(cfg, s, isReq) && a.cat != Short
    requires PrepOk(cfg, isReq, dest, a) || PrepOk(cfg, isReq, dest, a.(flags := Cleared(a.flags)))
    ensures Granting(cfg, s, isReq, Grant(cfg, isReq, dest, a), FinishPrepare(cfg, s, isReq, dest, a.(flags := Cleared(a.flags))))
  {
    if PrepOk(cfg, isReq, dest, a) { GrantWithinBounds(cfg, isReq, dest, a); }
    else { GrantWithinBounds(cfg, isReq, dest, a.(flags := Cleared(a.flags))); }
    Buffered(cfg);
    if dest.Local? { FinishLocal(cfg, s, isReq, a); } else { FinishRemote(cfg, s, isReq, dest, a); }
  }

  predicate Placed(cfg: Config)
    requires cfg.align > 0
  {
    cfg.mallocAt > 0 && cfg.mallocAt % cfg.align == 0 && ReplyAt(cfg) % cfg.align == 0
  }

  /** The loopback branch, for either category. */
  lemma {:induction false} InnerGood(cfg: Config, s: State, sd: SrcDesc, isReq: bool, a: PrepArgs)
    requires cfg.align > 0 && Placed(cfg) && Buffers(cfg, s) && !Of(s, isReq).live
    requires a.cat != Short && sd.toFree == 0 && sd.gexBuf == 0 && Granted(cfg, Grant(cfg, isReq, Local, a))
    ensures var r := PrepareInner(cfg, s, sd, false, isReq, a.cat, a.cbuf, a.most, a.nargs);
            var p := Grant(cfg, isReq, Local, a);
            && r.Both? && OnlySide(s, r.state, isReq) && Buffers(cfg, r.state)
            && Of(r.state, isReq).sd == Of(s, isReq).sd
            && Of(r.state, isReq).live == UsesBuf(p)
            && var t, buf := r.sd, Of(r.state, isReq).buf;
               && (UsesBuf(p) ==> buf != 0 && buf % cfg.align == 0)
               && t == sd.(nargs := a.nargs, size := p.size, voidP := if a.cat == Medium then buf else sd.voidP,
                           addr := if a.cbuf == 0 then buf else a.cbuf, gexBuf := if a.cbuf == 0 then buf else 0,
                           toFree := if a.cbuf == 0 && a.cat == Long then buf else 0)
  {
  }

  lemma {:induction false} FinishLocal(cfg: Config, s: State, isReq: bool, a: PrepArgs)
    requires cfg.align > 0 && Placed(cfg)
    requires Ready(cfg, s, isReq) && a.cat != Short && Granted(cfg, Grant(cfg, isReq, Local, a))
    requires a.least <= Grant(cfg, isReq, Local, a).size <= a.most
    ensures Granting(cfg, s, isReq, Grant(cfg, isReq, Local, a), FinishPrepare(cfg, s, isReq, Local, a.(flags := Cleared(a.flags))))
  {
    var sd := Of(s, isReq).sd.(category := a.cat, destAddr := DestAddrOf(a.cat, a.destAddr), nargs := a.nargs, isNbrhd := true, dest := Local);
    InnerGood(cfg, s, sd, isReq, a);
  }

  lemma {:induction false} FinishRemote(cfg: Config, s: State, isReq: bool, dest: Dest, a: PrepArgs)
    requires cfg.align > 0 && Placed(cfg)
    requires Ready(cfg, s, isReq) && a.cat != Short && Granted(cfg, Grant(cfg, isReq, dest, a)) && dest.Remote?
    requires a.least <= Grant(cfg, isReq, dest, a).size <= a.most
    ensures Granting(cfg, s, isReq, Grant(cfg, isReq, dest, a), FinishPrepare(cfg, s, isReq, dest, a.(flags := Cleared(a.flags))))
  {
  }

  lemma {:induction false} PreparingReply(cfg: Config, v: View, s: State, act: Action)
    requires ConfigOk(cfg) && Consistent(cfg, v, s) && Permitted(cfg, v, act) && act.PrepareReply?
    ensures Good(cfg, v, act, Step(cfg, s, act))
  {
    RequestTop(cfg, v, s);
    var a, dest, f := act.prep, Origin(Here(v).source), Top(s);
    FinishPrepareGood(cfg, WithSd(s, false, s.rep.sd.(active := true, gexBuf := 0)), false, dest, a);
    var t := Step(cfg, s, act).value;
    TopChanged(cfg, v, s, Here(v).(rep := Some(Grant(cfg, false, dest, a))), t, if dest.Local? then f.(replyIssued := true) else f);
  }

  lemma {:induction false} EndingPrepare(cfg: Config, v: View, s: State)
    requires ConfigOk(cfg) && Related(cfg, v, s) && Permitted(cfg, v, EndPoll) && Here(v).InPoll? && Here(v).call.Preparing?
    ensures Good(cfg, v, EndPoll, Step(cfg, s, EndPoll))
  {
    var a := Here(v).call.prep;
    FinishPrepareGood(cfg, WithSd(Pop(s), true, s.req.sd.(active := true, gexBuf := 0)), true, a.dest, a);
  }

  lemma {:induction false} EndingSend(cfg: Config, v: View, s: State)
    requires ConfigOk(cfg) && Related(cfg, v, s) && Permitted(cfg, v, EndPoll) && Here(v).InPoll? && Here(v).call.Sending?
    ensures Good(cfg, v, EndPoll, Step(cfg, s, EndPoll))
  {
    var a := Here(v).call.send;
    assert Leave(v).ctx == [] && Pop(s).stack == [];
    if a.dest.Local? {
      SendRequestLocal(cfg, Pop(s), a);
      RequestEntered(cfg, v, a.cat, SendLocal(cfg, Pop(s), true, a).value);
    }
  }

  /** What a fixed-payload request within the process leaves behind. */
  lemma {:induction false} SendRequestLocal(cfg: Config, s: State, a: SendArgs)
    requires ConfigOk(cfg) && Buffers(cfg, s) && s.stack == [] && !s.req.running && |a.args| <= cfg.maxArgs
    requires Callable(cfg, a.handler, a.args, a.cat, true) && (a.cat == Long && Narrow(a.nbytes) != 0 ==> a.destAddr != 0)
    requires Side(cfg, s.req, None, None, false)
    ensures var r := SendLocal(cfg, s, true, a);
            && r.Next? && r.value.req.running && Buffers(cfg, r.value) && Side(cfg, r.value.req, None, None, a.cat == Medium)
            && r.value.rep == s.rep.(buf := r.value.rep.buf)
            && |r.value.stack| == 1 && !r.value.stack[0].Polling? && !r.value.stack[0].replyIssued
            && ReqFrame(r.value.req.buf, InRequest(FromFixed(a.cat), 0, None), r.value.stack[0])
  {
    Buffered(cfg);
    FixedInner(cfg, s, true, a);
  }

  lemma {:induction false} RequestEntered(cfg: Config, v: View, cat: Category, t: State)
    requires cfg.align > 0 && |v.ctx| == 1 && v.req.None? && Buffers(cfg, t) && t.req.running && !t.rep.running
    requires Side(cfg, t.req, None, None, cat == Medium) && Side(cfg, t.rep, None, None, false)
    requires |t.stack| == 1 && t.stack[0].Handler? && !t.stack[0].replyIssued
    requires ReqFrame(t.req.buf, InRequest(FromFixed(cat), 0, None), t.stack[0])
    ensures Consistent(cfg, Enter(Leave(v), InRequest(FromFixed(cat), 0, None)), t)
  {
    assert Enter(Leave(v), InRequest(FromFixed(cat), 0, None)).ctx == [InRequest(FromFixed(cat), 0, None)];
  }

  lemma {:induction false} EndingCommit(cfg: Config, v: View, s: State)
    requires ConfigOk(cfg) && Related(cfg, v, s) && Permitted(cfg, v, EndPoll) && Here(v).InCommit?
    ensures Good(cfg, v, EndPoll, Step(cfg, s, EndPoll))
  {
    assert Leave(v).ctx == [] && Pop(s).stack == [];
  }

  lemma {:induction false} EndingPoll(cfg: Config, v: View, s: State)
    requires ConfigOk(cfg) && Related(cfg, v, s) && Permitted(cfg, v, EndPoll)
    ensures Good(cfg, v, EndPoll, Step(cfg, s, EndPoll))
  {
    if Here(v).InCommit? { EndingCommit(cfg, v, s); }
    else if Here(v).call.Preparing? { EndingPrepare(cfg, v, s); }
    else if Here(v).call.Sending? { EndingSend(cfg, v, s); }
    else { assert Leave(v).ctx == [] && Pop(s).stack == []; }
  }

  // ----- replies ------------------------------------------------------------------

  /** Delivering a reply inside its request handler: what changes and what does not. */
  lemma {:induction false} DeliverReply(cfg: Config, s: State, sd: SrcDesc, isFixed: bool, cat: Category, handler: nat,
                     nbytes: nat, destAddr: Ptr, args: seq<int>)
    requires ConfigOk(cfg) && |s.stack| == 1 && s.stack[0].Handler? && !s.rep.running && |args| <= cfg.maxArgs
    requires Callable(cfg, handler, args, cat, false)
    requires cat == Long && nbytes != 0 ==> destAddr != 0
    requires cat == Medium ==> sd.voidP == ReplyAt(cfg)
    ensures var r := Deliver(cfg, s, sd, isFixed, false, cat, handler, nbytes, destAddr, args, isFixed);
            && r.Next?
            && r.value == s.(mem := r.value.mem, log := r.value.log, rep := s.rep.(running := true), stack := r.value.stack)
            && |r.value.stack| == 2
            && r.value.stack[0] == s.stack[0].(replies := s.stack[0].replies + 1)
            && r.value.stack[1] == Handler(false, Local, false, 0,
                                           AfterLoopback(isFixed, cat, Stage(s, sd, isFixed, cat, nbytes, destAddr).0, isFixed))
  {
    Buffered(cfg);
  }

  lemma {:induction false} CommittingReply(cfg: Config, v: View, s: State, act: Action)
    requires ConfigOk(cfg) && Consistent(cfg, v, s) && Permitted(cfg, v, act) && act.CommitReply?
    ensures Good(cfg, v, act, Step(cfg, s, act))
  {
    if Here(v).rep.value.dest.Local? { CommittingReplyLocal(cfg, v, s, act); } else { CommittingReplyRemote(cfg, v, s, act); }
  }

  lemma {:induction false} CommittingReplyLocal(cfg: Config, v: View, s: State, act: Action)
    requires ConfigOk(cfg) && Consistent(cfg, v, s) && Permitted(cfg, v, act) && act.CommitReply? && Here(v).rep.value.dest.Local?
    ensures Good(cfg, v, act, Step(cfg, s, act))
  {
    RequestTop(cfg, v, s);
    var c := act.commit;
    var sd := s.rep.sd.(active := false);
    DeliverReply(cfg, WithSd(s, false, sd), sd, false, c.cat, c.handler, c.nbytes, DestAddrOf(c.cat, c.destAddr), c.args);
    ReplyEntered(cfg, v, s, FromPrepared(Here(v).rep.value), Step(cfg, s, act).value);
  }

  lemma {:induction false} InjectReply(cfg: Config, s: State, p: Prep, c: CommitArgs)
    requires SdIs(cfg, s.rep, p, true) && s.rep.live == UsesBuf(p) && p.dest.Remote? && (c.accepted || c.immediate)
    requires s.stack != [] && Top(s).Handler?
    ensures var r, f := CommitInject(WithSd(s, false, s.rep.sd.(active := false)), false, c), Top(s);
            && r.Next? && r.value.req == s.req && r.value.rep.buf == s.rep.buf && r.value.rep.running == s.rep.running
            && Side(cfg, r.value.rep, if c.accepted then None else Some(p), None, false)
            && r.value.stack == s.stack[..|s.stack| - 1] + [if c.accepted then f.(replies := f.replies + 1) else f]
  {
  }

  lemma {:induction false} CommittingReplyRemote(cfg: Config, v: View, s: State, act: Action)
    requires ConfigOk(cfg) && Consistent(cfg, v, s) && Permitted(cfg, v, act) && act.CommitReply? && Here(v).rep.value.dest.Remote?
    ensures Good(cfg, v, act, Step(cfg, s, act))
  {
    RequestTop(cfg, v, s);
    InjectReply(cfg, s, Here(v).rep.value, act.commit);
    var t, f := Step(cfg, s, act).value, Top(s);
    if act.commit.accepted { TopChanged(cfg, v, s, Replied(Here(v)), t, f.(replies := 1)); }
    else { TopChanged(cfg, v, s, Here(v), t, f); }
  }

  lemma {:induction false} SendingReply(cfg: Config, v: View, s: State, act: Action)
    requires ConfigOk(cfg) && Consistent(cfg, v, s) && Permitted(cfg, v, act) && act.SendReply?
    ensures Good(cfg, v, act, Step(cfg, s, act))
  {
    var a := act.send;
    if Here(v).source.FromNetwork? || BadArg(cfg, false, Local, a) { SendingReplyOut(cfg, v, s, act); }
    else { SendingReplyLocal(cfg, v, s, act); }
  }

  /** Where a permitted reply goes. */
  lemma {:induction false} ReplyGoes(cfg: Config, v: View, s: State, a: SendArgs)
    requires ConfigOk(cfg) && Consistent(cfg, v, s) && Permitted(cfg, v, SendReply(a))
    ensures InHandler(s)
    ensures Step(cfg, s, SendReply(a)) == if BadArg(cfg, false, Origin(Here(v).source), a) then Next(s)
                                          else if Here(v).source.FromNetwork? then Next(SendRemote(s, false, Origin(Here(v).source), a))
                                          else SendLocal(cfg, s, false, a)
  {
    RequestTop(cfg, v, s);
  }

  lemma {:induction false} SendingReplyOut(cfg: Config, v: View, s: State, act: Action)
    requires ConfigOk(cfg) && Consistent(cfg, v, s) && Permitted(cfg, v, act) && act.SendReply?
    requires Here(v).source.FromNetwork? || BadArg(cfg, false, Local, act.send)
    ensures Good(cfg, v, act, Step(cfg, s, act))
  {
    ReplyGoes(cfg, v, s, act.send);
    if !BadArg(cfg, false, Origin(Here(v).source), act.send) {
      ReplyLeaves(cfg, v, s, SendRemote(s, false, Origin(Here(v).source), act.send));
    }
  }

  /** A reply to the network changes only the count of its token. */
  lemma {:induction false} ReplyLeaves(cfg: Config, v: View, s: State, t: State)
    requires cfg.align > 0 && Consistent(cfg, v, s) && InRequestHandler(v) && Here(v).replies == 0 && Here(v).rep.None?
    requires Here(v).source.FromNetwork? && s.stack != [] && Top(s).Handler?
    requires t.req == s.req && t.rep == s.rep && t.stack == WithTop(s, Top(s).(replies := Top(s).replies + 1)).stack
    ensures Consistent(cfg, Become(v, Replied(Here(v))), t)
  {
    RequestTop(cfg, v, s);
    TopChanged(cfg, v, s, Replied(Here(v)), t, Top(s).(replies := 1));
  }

  /** The fixed-payload path takes the buffer for a Medium and nothing otherwise. */
  lemma {:induction false} FixedInner(cfg: Config, s: State, isReq: bool, a: SendArgs)
    requires cfg.align > 0 && cfg.mallocAt > 0 && Buffers(cfg, s) && Side(cfg, Of(s, isReq), None, None, false)
    ensures var r := PrepareInner(cfg, s, BlankSd, true, isReq, a.cat, a.src, 0, |a.args|);
            && r.Both? && Buffers(cfg, r.state) && OnlySide(s, r.state, isReq)
            && Side(cfg, Of(r.state, isReq), None, None, a.cat == Medium)
            && (a.cat == Medium ==> r.sd.voidP == Of(r.state, isReq).buf != 0)
  {
  }

  lemma {:induction false} SendReplyLocal(cfg: Config, s: State, a: SendArgs)
    requires ConfigOk(cfg) && Buffers(cfg, s) && |s.stack| == 1 && s.stack[0].Handler? && !s.rep.running && |a.args| <= cfg.maxArgs
    requires Callable(cfg, a.handler, a.args, a.cat, false) && (a.cat == Long && Narrow(a.nbytes) != 0 ==> a.destAddr != 0)
    requires Side(cfg, s.rep, None, None, false)
    ensures var r := SendLocal(cfg, s, false, a);
            && r.Next? && SameReq(s, r.value) && r.value.rep.running && Buffers(cfg, r.value)
            && Side(cfg, r.value.rep, None, None, a.cat == Medium)
            && |r.value.stack| == 2 && r.value.stack[0] == s.stack[0].(replies := s.stack[0].replies + 1)
            && RepFrame(r.value.rep.buf, InReply(FromFixed(a.cat)), r.value.stack[1])
  {
    FixedInner(cfg, s, false, a);
    var r := PrepareInner(cfg, s, BlankSd, true, false, a.cat, a.src, 0, |a.args|);
    var s', sd := r.state, r.sd;
    DeliverReply(cfg, s', sd, true, a.cat, a.handler, Narrow(a.nbytes), DestAddrOf(a.cat, a.destAddr), a.args);
  }

  lemma {:induction false} SendReplyTop(cfg: Config, v: View, s: State, a: SendArgs)
    requires ConfigOk(cfg) && Consistent(cfg, v, s) && Permitted(cfg, v, SendReply(a))
    requires !Here(v).source.FromNetwork? && !BadArg(cfg, false, Local, a)
    ensures |v.ctx| == 1 && s.stack != [] && |s.stack| == 1
    ensures var r := SendLocal(cfg, s, false, a);
            && r.Next? && SameReq(s, r.value) && r.value.rep.running && Buffers(cfg, r.value)
            && Side(cfg, r.value.rep, None, None, a.cat == Medium)
            && |r.value.stack| == 2 && r.value.stack[0] == s.stack[0].(replies := 1)
            && RepFrame(r.value.rep.buf, InReply(FromFixed(a.cat)), r.value.stack[1])
  {
    RequestTop(cfg, v, s);
    SendReplyLocal(cfg, s, a);
  }

  lemma {:induction false} SendingReplyLocal(cfg: Config, v: View, s: State, act: Action)
    requires ConfigOk(cfg) && Consistent(cfg, v, s) && Permitted(cfg, v, act) && act.SendReply?
    requires !Here(v).source.FromNetwork? && !BadArg(cfg, false, Local, act.send)
    ensures Good(cfg, v, act, Step(cfg, s, act))
  {
    ReplyGoes(cfg, v, s, act.send);
    SendReplyTop(cfg, v, s, act.send);
    ReplyEntered(cfg, v, s, FromFixed(act.send.cat), SendLocal(cfg, s, false, act.send).value);
  }

  // ----- whole runs ---------------------------------------------------------------

  lemma {:induction false} PendingStays(cfg: Config, v: View, act: Action)
    requires Permitted(cfg, v, act) && PendingOk(cfg, v)
    ensures PendingOk(cfg, Advance(cfg, v, act))
  {
  }

  /** Inside a poll the arguments of the interrupted call do not matter. */
  lemma {:induction false} StepConsistent(cfg: Config, v: View, s: State, act: Action)
    requires ConfigOk(cfg) && Consistent(cfg, v, s) && Permitted(cfg, v, act) && (act.EndPoll? ==> PendingOk(cfg, v))
    ensures Good(cfg, v, act, Step(cfg, s, act))
  {
    match act
    case Store(_, _) => Storing(cfg, v, s, act);
    case Poll => StartingPoll(cfg, v, s, act);
    case PrepareRequest(_) => StartingPoll(cfg, v, s, act);
    case SendRequest(_) => SendingRequest(cfg, v, s, act);
    case SendReply(_) => SendingReply(cfg, v, s, act);
    case PrepareReply(_) => PreparingReply(cfg, v, s, act);
    case CommitRequest(_) => CommittingRequest(cfg, v, s, act);
    case CommitReply(_) => CommittingReply(cfg, v, s, act);
    case CancelRequest(_) => CancellingRequest(cfg, v, s, act);
    case CancelReply(_) => CancellingReply(cfg, v, s, act);
    case Return => Returning(cfg, v, s, act);
    case Arrive(_, _, _, _, _, _) => Arriving(cfg, v, s, act);
    case EndPoll => EndingPoll(cfg, v, s);
  }

  /** Simulation: whatever the client may do and whatever the network does, the step
      goes through and the library's state follows the client's view. */
  lemma {:induction false} StepGood(cfg: Config, v: View, s: State, act: Action)
    requires ConfigOk(cfg) && Related(cfg, v, s) && Permitted(cfg, v, act)
    ensures Step(cfg, s, act).Next? && Related(cfg, Advance(cfg, v, act), Step(cfg, s, act).value)
  {
    StepConsistent(cfg, v, s, act);
    PendingStays(cfg, v, act);
  }

  lemma {:induction false} RunGood(cfg: Config, v: View, s: State, acts: seq<Action>)
    requires ConfigOk(cfg) && Related(cfg, v, s) && Disciplined(cfg, v, acts)
    ensures Run(cfg, s, acts).Next? && Related(cfg, Views(cfg, v, acts), Run(cfg, s, acts).value)
    decreases |acts|
  {
    if acts != [] {
      StepGood(cfg, v, s, acts[0]);
      RunGood(cfg, Advance(cfg, v, acts[0]), Step(cfg, s, acts[0]).value, acts[1..]);
    }
  }
}
