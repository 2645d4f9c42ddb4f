/** What follows for every disciplined run: who holds the buffers, how handlers
    nest, how often a token is answered, and what the debug checks catch. */
module NpamTheorems {
  import opened Dispatch
  import opened Npam
  import opened NpamClient
  import opened NpamSafety
  import opened NpamDelivery

  lemma {:induction false} InitRelated(cfg: Config, mem: seq<Byte>)
    requires cfg.align > 0
    ensures Related(cfg, Start, InitState(mem))
  {
  }

  /** Reachable: some disciplined run from the start leads here. */
  ghost predicate Reachable(cfg: Config, v: View, s: State)
    requires cfg.align > 0
  {
    exists mem: seq<Byte>, acts: seq<Action> ::
      Disciplined(cfg, Start, acts) && Run(cfg, InitState(mem), acts) == Next(s) && Views(cfg, Start, acts) == v
  }

  lemma {:induction false} ReachableRelated(cfg: Config, v: View, s: State)
    requires ConfigOk(cfg) && Reachable(cfg, v, s)
    ensures Related(cfg, v, s)
  {
    var mem: seq<Byte>, acts: seq<Action> :|
      Disciplined(cfg, Start, acts) && Run(cfg, InitState(mem), acts) == Next(s) && Views(cfg, Start, acts) == v;
    InitRelated(cfg, mem);
    RunGood(cfg, Start, InitState(mem), acts);
  }

  /** No assertion, no fatal error and no step that does not apply, on any run in
      which the client keeps to its discipline. */
  lemma {:induction false} DisciplinedRunsNeverFail(cfg: Config, mem: seq<Byte>, acts: seq<Action>)
    requires ConfigOk(cfg) && Disciplined(cfg, Start, acts)
    ensures Run(cfg, InitState(mem), acts).Next?
  {
    InitRelated(cfg, mem);
    RunGood(cfg, Start, InitState(mem), acts);
  }

  /** Whenever the client is outside every library call and handler: a descriptor is
      active exactly when the client holds a Prepare, the request buffer is live
      exactly when what it holds needs it, the reply side is free, and an inactive
      descriptor has nothing left to free. */
  lemma {:induction false} BufferLiveIffHeld(cfg: Config, v: View, s: State)
    requires ConfigOk(cfg) && Reachable(cfg, v, s) && AtTop(v)
    ensures s.req.sd.active <==> v.req.Some?
    ensures s.req.live <==> v.req.Some? && UsesBuf(v.req.value)
    ensures v.req.None? ==> s.req.sd.toFree == 0
    ensures !s.rep.sd.active && !s.rep.live && s.rep.sd.toFree == 0
    ensures s.stack == [] && !s.req.running && !s.rep.running
  {
    ReachableRelated(cfg, v, s);
  }

  /** The same for the reply side inside a request handler; there the request
      descriptor is inactive, and its buffer is live only for the handler's own
      message or for the Commit during which it was polled in. */
  lemma {:induction false} ReplyBufferLiveIffHeld(cfg: Config, v: View, s: State)
    requires ConfigOk(cfg) && Reachable(cfg, v, s) && InRequestHandler(v)
    ensures s.rep.sd.active <==> Here(v).rep.Some?
    ensures s.rep.live <==> Here(v).rep.Some? && UsesBuf(Here(v).rep.value)
    ensures Here(v).rep.None? ==> s.rep.sd.toFree == 0
    ensures !s.req.sd.active
    ensures s.req.live ==> ReqInCommit(v).Some? || FixedMedium(v.ctx[0])
  {
    ReachableRelated(cfg, v, s);
  }

  /** Handlers nest at most as a reply handler inside a request handler, and the
      counters count them. */
  lemma {:induction false} HandlersNestReplyInRequest(cfg: Config, v: View, s: State, i: nat, j: nat)
    requires ConfigOk(cfg) && Reachable(cfg, v, s) && i < j < |s.stack| && s.stack[i].Handler? && s.stack[j].Handler?
    ensures i == 0 && j == 1 && |s.stack| == 2 && s.stack[0].isReq && !s.stack[1].isReq && s.req.running && s.rep.running
  {
    ReachableRelated(cfg, v, s);
  }

  /** A neighbourhood request token gets at most one reply and a reply token none;
      while its handler has control, replyIssued says that the reply is delivered
      or that the active reply descriptor is for this token. */
  lemma {:induction false} OneReplyPerToken(cfg: Config, v: View, s: State, k: nat)
    requires ConfigOk(cfg) && Reachable(cfg, v, s) && k < |s.stack| && s.stack[k].Handler?
    ensures s.stack[k].isReq ==> s.stack[k].replies <= 1
    ensures !s.stack[k].isReq ==> s.stack[k].replies == 0 && !s.rep.sd.active
    ensures s.stack[k].isReq && s.stack[k].from.Local? && k == |s.stack| - 1 ==>
              (s.stack[k].replyIssued <==> s.stack[k].replies == 1 || s.rep.sd.active)
  {
    ReachableRelated(cfg, v, s);
    if |v.ctx| == 2 { assert v.ctx[1].InRequest? || v.ctx[1].InReply?; }
  }

  // ----- what the checks catch -------------------------------------------------------

  /** The client calls whose misuse is decided at the call itself. */
  predicate Immediate(v: View, act: Action) {
    || act.Poll? || act.SendRequest? || act.CommitRequest? || act.CommitReply? || act.CancelRequest? || act.CancelReply?
    || (act.PrepareReply? && act.prep.cat != Short && v.ctx != [] && LocalToken(Here(v)))
    || (act.SendReply? && v.ctx != [] && LocalToken(Here(v)))
  }

  predicate LocalToken(c: Ctx) { (c.InRequest? || c.InReply?) && !c.source.FromNetwork? }

  /** The discipline as far as the call itself can tell: the handler of a request is
      looked up, and the conduit answers, only after the poll; and a malformed reply
      is turned down before its token is looked at. */
  predicate Allowed(cfg: Config, v: View, act: Action) {
    match act
    case SendRequest(a) => AtTop(v) && v.req.None? && |a.args| <= cfg.maxArgs
    case CommitRequest(c) => v.req.Some? && CommitArgsOk(cfg, true, v.req.value, c)
    case SendReply(a) =>
      || Permitted(cfg, v, act)
      || (InRequestHandler(v) && Here(v).rep.None? && |a.args| <= cfg.maxArgs && BadArg(cfg, false, Local, a))
    case _ => Permitted(cfg, v, act)
  }

  /** At the call itself the debug checks are exact: from any state a disciplined run
      can reach, a call is fatal if and only if it is not allowed. */
  lemma {:induction false} ChecksAreExact(cfg: Config, v: View, s: State, act: Action)
    requires ConfigOk(cfg) && Related(cfg, v, s) && ClientTurn(v) && Immediate(v, act)
    ensures Step(cfg, s, act).Fatal? <==> !Allowed(cfg, v, act)
  {
    if Allowed(cfg, v, act) { AllowedIsNotFatal(cfg, v, s, act); } else { ForbiddenIsFatal(cfg, v, s, act); }
  }

  lemma {:induction false} AllowedIsNotFatal(cfg: Config, v: View, s: State, act: Action)
    requires ConfigOk(cfg) && Related(cfg, v, s) && ClientTurn(v) && Immediate(v, act) && Allowed(cfg, v, act)
    ensures !Step(cfg, s, act).Fatal?
  {
    if Permitted(cfg, v, act) { StepGood(cfg, v, s, act); }
    else if act.SendReply? { RequestTop(cfg, v, s); }
    else if act.CommitRequest? { Buffered(cfg); }
  }

  lemma {:induction false} ForbiddenIsFatal(cfg: Config, v: View, s: State, act: Action)
    requires ConfigOk(cfg) && Related(cfg, v, s) && ClientTurn(v) && Immediate(v, act) && !Allowed(cfg, v, act)
    ensures Step(cfg, s, act).Fatal?
  {
    if act.CommitReply? || act.CancelReply? || act.SendReply? || act.PrepareReply? {
      ForbiddenReplyIsFatal(cfg, v, s, act);
    }
  }

  lemma {:induction false} ForbiddenReplyIsFatal(cfg: Config, v: View, s: State, act: Action)
    requires ConfigOk(cfg) && Related(cfg, v, s) && ClientTurn(v) && Immediate(v, act) && !Allowed(cfg, v, act)
    requires act.CommitReply? || act.CancelReply? || act.SendReply? || act.PrepareReply?
    ensures Step(cfg, s, act).Fatal?
  {
    if act.CommitReply? { ForbiddenCommitReply(cfg, v, s, act.commit); }
    else if act.CancelReply? { ForbiddenCancelReply(cfg, v, s, act.cat); }
    else if act.SendReply? { ForbiddenSendReply(cfg, v, s, act.send); }
    else { ForbiddenPrepareReply(cfg, v, s, act.prep); }
  }

  lemma {:induction false} ForbiddenCommitReply(cfg: Config, v: View, s: State, c: CommitArgs)
    requires ConfigOk(cfg) && Related(cfg, v, s) && ClientTurn(v) && !Permitted(cfg, v, CommitReply(c))
    ensures DoCommit(cfg, s, false, c).Fatal?
  {
    if RepHeld(v).Some? {
      RequestTop(cfg, v, s);
      MismatchedCommit(cfg, s, RepHeld(v).value, c);
    }
  }

  lemma {:induction false} MismatchedCommit(cfg: Config, s: State, p: Prep, c: CommitArgs)
    requires cfg.align > 0 && SdIs(cfg, s.rep, p, true) && !CommitMatches(cfg, false, p, c)
    ensures DoCommit(cfg, s, false, c).Fatal?
  {
  }

  lemma {:induction false} ForbiddenCancelReply(cfg: Config, v: View, s: State, cat: Category)
    requires ConfigOk(cfg) && Related(cfg, v, s) && ClientTurn(v) && !Permitted(cfg, v, CancelReply(cat))
    ensures DoCancel(s, false, cat).Fatal?
  {
  }

  lemma {:induction false} ForbiddenSendReply(cfg: Config, v: View, s: State, a: SendArgs)
    requires ConfigOk(cfg) && Related(cfg, v, s) && v.ctx != [] && LocalToken(Here(v)) && !Allowed(cfg, v, SendReply(a))
    ensures InHandler(s) && DoSendReply(cfg, s, a).Fatal?
  {
  }

  lemma {:induction false} ForbiddenPrepareReply(cfg: Config, v: View, s: State, a: PrepArgs)
    requires ConfigOk(cfg) && Related(cfg, v, s) && v.ctx != [] && LocalToken(Here(v)) && a.cat != Short
    requires !Permitted(cfg, v, PrepareReply(a))
    ensures InHandler(s) && DoPrepareReply(cfg, s, a).Fatal?
  {
  }

  /** PrepareRequest polls before it looks; once the poll is over it is fatal exactly
      when it breaks the discipline. */
  lemma {:induction false} PrepareRequestCheckIsExact(cfg: Config, v: View, s: State, a: PrepArgs)
    requires ConfigOk(cfg) && Related(cfg, v, s) && ClientTurn(v) && a.cat != Short
    ensures var r := Step(cfg, s, PrepareRequest(a));
            r.Next? && (Step(cfg, r.value, EndPoll).Fatal? <==> !Permitted(cfg, v, PrepareRequest(a)))
  {
    var act := PrepareRequest(a);
    var t := Push(s, Polling(Preparing(a)));
    assert Pop(t) == s by { assert t.stack[..|t.stack| - 1] == s.stack; }
    if Permitted(cfg, v, act) { PermittedPrepareIsNotFatal(cfg, v, s, a); } else { ForbiddenPrepareIsFatal(cfg, v, s, a); }
  }

  lemma {:induction false} PermittedPrepareIsNotFatal(cfg: Config, v: View, s: State, a: PrepArgs)
    requires ConfigOk(cfg) && Related(cfg, v, s) && Permitted(cfg, v, PrepareRequest(a))
    ensures Step(cfg, Push(s, Polling(Preparing(a))), EndPoll).Next?
  {
    StepGood(cfg, v, s, PrepareRequest(a));
    StepGood(cfg, Advance(cfg, v, PrepareRequest(a)), Push(s, Polling(Preparing(a))), EndPoll);
  }

  lemma {:induction false} ForbiddenPrepareIsFatal(cfg: Config, v: View, s: State, a: PrepArgs)
    requires ConfigOk(cfg) && Related(cfg, v, s) && ClientTurn(v) && a.cat != Short && !Permitted(cfg, v, PrepareRequest(a))
    ensures DoPrepareRequest(cfg, s, a).Fatal?
  {
  }

  /** The arguments that only the end of a call's poll can tell, however wrong the
      call was: with any traffic in the poll, its end is fatal if and only if the
      handler of a request within the process does not accept it, a Prepare is out of
      bounds, or the conduit refuses what was not IMMEDIATE. */
  lemma {:induction false} PollEndIsExact(cfg: Config, v: View, s: State, inner: seq<Action>)
    requires ConfigOk(cfg) && Consistent(cfg, v, s) && |v.ctx| == 1 && !ClientTurn(v)
    requires InnerRun(cfg, v, inner) && Disciplined(cfg, v, inner) && Views(cfg, v, inner) == v
    requires Here(v).InPoll? && Here(v).call.Preparing? ==> Here(v).call.prep.cat != Short
    ensures var r := Run(cfg, s, inner);
            r.Next? && (Step(cfg, r.value, EndPoll).Fatal? <==> !PendingOk(cfg, v))
  {
    InnerRunKeepsRequest(cfg, v, s, inner);
    var t := Run(cfg, s, inner).value;
    if PendingOk(cfg, v) { StepGood(cfg, v, t, EndPoll); } else { BadPendingIsFatal(cfg, v, t); }
  }

  lemma {:induction false} BadPendingIsFatal(cfg: Config, v: View, s: State)
    requires ConfigOk(cfg) && Consistent(cfg, v, s) && |v.ctx| == 1 && !ClientTurn(v) && !PendingOk(cfg, v)
    requires Here(v).InPoll? && Here(v).call.Preparing? ==> Here(v).call.prep.cat != Short
    ensures Step(cfg, s, EndPoll).Fatal?
  {
    if Here(v).InPoll? && Here(v).call.Sending? { BadSendIsFatal(cfg, Pop(s), Here(v).call.send); }
  }

  lemma {:induction false} BadSendIsFatal(cfg: Config, s: State, a: SendArgs)
    requires cfg.align > 0 && a.dest.Local? && !BadArg(cfg, true, Local, a) && !SendOk(cfg, true, Local, a)
    ensures SendLocal(cfg, s, true, a).Fatal?
  {
  }

  /** Nothing that breaks the discipline goes by: it is fatal at the call, or the call
      turns its arguments down and changes nothing, or the end of its poll is fatal. */
  lemma {:induction false} ViolationsAreAccountedFor(cfg: Config, v: View, s: State, act: Action) returns (c: Ctx)
    requires ConfigOk(cfg) && Related(cfg, v, s) && ClientTurn(v) && Immediate(v, act) && !Permitted(cfg, v, act)
    ensures var r := Step(cfg, s, act);
            || r.Fatal?
            || r == Next(s)
            || (r.Next? && !ClientTurn(Enter(v.(req := None), c)) && Consistent(cfg, Enter(v.(req := None), c), r.value)
                && !PendingOk(cfg, Enter(v.(req := None), c)))
  {
    c := InPoll(JustPoll);
    if !Allowed(cfg, v, act) {
      ForbiddenIsFatal(cfg, v, s, act);
    } else if act.SendReply? {
      RequestTop(cfg, v, s);
    } else if act.SendRequest? {
      c := InPoll(Sending(act.send));
      assert v.(req := None) == v;
      if !BadArg(cfg, true, act.send.dest, act.send) { PollEntered(cfg, v, s, Sending(act.send)); }
    } else {
      c := InCommit(v.req.value, act.commit);
      CommitPollEntered(cfg, v, s, act.commit);
    }
  }

  lemma {:induction false} CommitPollEntered(cfg: Config, v: View, s: State, c: CommitArgs)
    requires ConfigOk(cfg) && Related(cfg, v, s) && v.req.Some? && CommitArgsOk(cfg, true, v.req.value, c) && v.req.value.dest.Remote?
    ensures Step(cfg, s, CommitRequest(c)).Next?
    ensures Consistent(cfg, Enter(v.(req := None), InCommit(v.req.value, c)), Step(cfg, s, CommitRequest(c)).value)
  {
    assert v.ctx + [InCommit(v.req.value, c)] == [InCommit(v.req.value, c)];
  }

  // ----- a Prepare that outlives its handler -----------------------------------------

  /** No call that communicates, and no Prepare, is possible. */
  ghost predicate Muted(cfg: Config, s: State)
    requires cfg.align > 0
  {
    && !CheckInject(s, false) && !CheckInject(s, true)
    && (ClientRuns(s) ==> Step(cfg, s, Poll).Fatal?)
    && (ClientRuns(s) ==> forall a :: Step(cfg, s, SendRequest(a)).Fatal?)
    && (InHandler(s) ==> forall a :: Step(cfg, s, SendReply(a)).Fatal?)
    && (InHandler(s) ==> forall a :: Step(cfg, s, PrepareReply(a)).Fatal?)
    && forall a :: DoPrepareRequest(cfg, s, a).Fatal?
  }

  lemma {:induction false} ActiveReplyMutes(cfg: Config, s: State)
    requires cfg.align > 0 && s.rep.sd.active
    ensures Muted(cfg, s)
  {
  }

  predicate Ends(act: Action) { act.CommitReply? || act.CancelReply? }

  /** Only Commit and Cancel of a reply deactivate the reply descriptor, and they
      always do unless the conduit refuses the Commit. */
  lemma {:induction false} OnlyItsEndDeactivates(cfg: Config, s: State, act: Action)
    requires cfg.align > 0 && s.rep.sd.active && Step(cfg, s, act).Next?
    ensures Step(cfg, s, act).value.rep.sd.active
            <==> !Ends(act) || (act.CommitReply? && !s.rep.sd.isNbrhd && !act.commit.accepted)
  {
    match act
    case CommitReply(c) => CommitReplyDeactivates(cfg, s, c);
    case CancelReply(cat) => CancelReplyDeactivates(s, cat);
    case EndPoll => PollEndKeepsReply(cfg, s);
    case Return => ReturnKeepsReply(s);
    case CommitRequest(c) => CommitRequestKeepsReply(cfg, s, c);
    case CancelRequest(cat) => CancelRequestKeepsReply(s, cat);
    case _ =>
  }

  lemma {:induction false} CommitReplyDeactivates(cfg: Config, s: State, c: CommitArgs)
    requires cfg.align > 0 && s.rep.sd.active && DoCommit(cfg, s, false, c).Next?
    ensures DoCommit(cfg, s, false, c).value.rep.sd.active <==> !s.rep.sd.isNbrhd && !c.accepted
  {
  }

  lemma {:induction false} CancelReplyDeactivates(s: State, cat: Category)
    requires s.rep.sd.active && DoCancel(s, false, cat).Next?
    ensures !DoCancel(s, false, cat).value.rep.sd.active
  {
  }

  lemma {:induction false} ReturnKeepsReply(s: State)
    requires InHandler(s) && s.rep.sd.active && DoReturn(s).Next?
    ensures DoReturn(s).value.rep.sd.active
  {
  }

  lemma {:induction false} PollEndKeepsReply(cfg: Config, s: State)
    requires cfg.align > 0 && !ClientRuns(s) && s.rep.sd.active && DoEndPoll(cfg, s).Next?
    ensures DoEndPoll(cfg, s).value.rep.sd.active
  {
  }

  lemma {:induction false} CommitRequestKeepsReply(cfg: Config, s: State, c: CommitArgs)
    requires cfg.align > 0 && s.rep.sd.active && DoCommit(cfg, s, true, c).Next?
    ensures DoCommit(cfg, s, true, c).value.rep.sd.active
  {
  }

  lemma {:induction false} CancelRequestKeepsReply(s: State, cat: Category)
    requires s.rep.sd.active && DoCancel(s, true, cat).Next?
    ensures DoCancel(s, true, cat).value.rep.sd.active
  {
  }

  lemma {:induction false} ReplyStaysActive(cfg: Config, s: State, acts: seq<Action>)
    requires cfg.align > 0 && s.rep.sd.active && Run(cfg, s, acts).Next?
    requires forall k :: 0 <= k < |acts| ==> !Ends(acts[k])
    ensures Run(cfg, s, acts).value.rep.sd.active
    decreases |acts|
  {
    if acts != [] {
      assert !Ends(acts[0]);
      OnlyItsEndDeactivates(cfg, s, acts[0]);
      ReplyStaysActive(cfg, Step(cfg, s, acts[0]).value, acts[1..]);
    }
  }

  /** A request handler that returns while it holds a Prepare is not stopped; but
      until that reply is committed or cancelled, whatever else client and network
      do, every poll, injection and Prepare is fatal. */
  lemma {:induction false} ReturnHoldingReply(cfg: Config, v: View, s: State, acts: seq<Action>)
    requires ConfigOk(cfg) && Related(cfg, v, s) && InRequestHandler(v) && Here(v).rep.Some?
    requires forall k :: 0 <= k < |acts| ==> !Ends(acts[k])
    ensures Step(cfg, s, Return).Next?
    ensures var r := Run(cfg, Step(cfg, s, Return).value, acts);
            r.Next? ==> Muted(cfg, r.value)
  {
    ReturnGoesThrough(cfg, v, s);
    ReturnKeepsReply(s);
    var t := Step(cfg, s, Return).value;
    if Run(cfg, t, acts).Next? {
      ReplyStaysActive(cfg, t, acts);
      ActiveReplyMutes(cfg, Run(cfg, t, acts).value);
    }
  }

  lemma {:induction false} ReturnGoesThrough(cfg: Config, v: View, s: State)
    requires ConfigOk(cfg) && Related(cfg, v, s) && InRequestHandler(v) && Here(v).rep.Some?
    ensures InHandler(s) && Step(cfg, s, Return).Next?
  {
    RequestTop(cfg, v, s);
  }

  /** Cancelling the reply of a network request after its handler has returned sets
      everything right again. */
  lemma {:induction false} LateCancelRecovers(cfg: Config, v: View, s: State)
    requires ConfigOk(cfg) && Related(cfg, v, s) && |v.ctx| == 2 && v.ctx[0] == InPoll(JustPoll)
    requires InRequestHandler(v) && Here(v).rep.Some?
    ensures var r := Run(cfg, s, [Return, EndPoll, CancelReply(Here(v).rep.value.cat)]);
            r.Next? && Related(cfg, Start, r.value)
  {
    var p := Here(v).rep.value;
    ReturnGoesThrough(cfg, v, s);
    RequestTop(cfg, v, s);
    var s1 := Step(cfg, s, Return).value;
    assert s1.stack == [s.stack[0]];
    var s2 := Step(cfg, s1, EndPoll).value;
    assert s2 == Pop(s1) && s2.stack == [];
    LateCancel(cfg, s2, p);
    RunThree(cfg, s, Return, EndPoll, CancelReply(p.cat));
  }

  lemma {:induction false} LateCancel(cfg: Config, s: State, p: Prep)
    requires cfg.align > 0 && Buffers(cfg, s) && s.stack == [] && !s.req.running && !s.rep.running
    requires Side(cfg, s.req, None, None, false) && SdIs(cfg, s.rep, p, true) && p.dest.Remote? && s.rep.live == UsesBuf(p)
    ensures var r := Step(cfg, s, CancelReply(p.cat)); r.Next? && Related(cfg, Start, r.value)
  {
  }

  lemma {:induction false} RunThree(cfg: Config, s: State, a: Action, b: Action, c: Action)
    requires cfg.align > 0 && Step(cfg, s, a).Next? && Step(cfg, Step(cfg, s, a).value, b).Next?
    ensures Run(cfg, s, [a, b, c]) == Step(cfg, Step(cfg, Step(cfg, s, a).value, b).value, c)
  {
    assert [a, b, c] == [a] + [b, c] && [b, c] == [b] + [c];
    RunCons(cfg, s, a, [b, c]);
    RunCons(cfg, Step(cfg, s, a).value, b, [c]);
    RunOne(cfg, Step(cfg, Step(cfg, s, a).value, b).value, c);
  }

  // ----- the bounds are attained ------------------------------------------------------

  const Nested: View := View(None, [InRequest(FromFixed(Medium), 1, None), InReply(FromFixed(Medium))])

  /** Fixed Medium to oneself, answered by a Medium: three actions lead into a reply
      handler inside a request handler, with both buffers live. */
  lemma {:induction false} NestedReplyRun(cfg: Config, mem: seq<Byte>, a: SendArgs, b: SendArgs)
    requires ConfigOk(cfg) && a.cat == Medium && b.cat == Medium && a.dest.Local?
    requires SendOk(cfg, true, Local, a) && !BadArg(cfg, true, Local, a)
    requires SendOk(cfg, false, Local, b) && !BadArg(cfg, false, Local, b)
    ensures var r := Run(cfg, InitState(mem), [SendRequest(a), EndPoll, SendReply(b)]);
            r.Next? && Related(cfg, Nested, r.value) && r.value.req.live && r.value.rep.live
  {
    NestedReplyDiscipline(cfg, a, b);
    InitRelated(cfg, mem);
    RunGood(cfg, Start, InitState(mem), [SendRequest(a), EndPoll, SendReply(b)]);
    BothLive(cfg, Run(cfg, InitState(mem), [SendRequest(a), EndPoll, SendReply(b)]).value);
  }

  lemma {:induction false} BothLive(cfg: Config, s: State)
    requires cfg.align > 0 && Related(cfg, Nested, s)
    ensures s.req.live && s.rep.live
  {
  }

  lemma {:induction false} NestedReplyDiscipline(cfg: Config, a: SendArgs, b: SendArgs)
    requires a.cat == Medium && b.cat == Medium && a.dest.Local?
    requires SendOk(cfg, true, Local, a) && !BadArg(cfg, true, Local, a)
    requires SendOk(cfg, false, Local, b) && !BadArg(cfg, false, Local, b)
    ensures var acts := [SendRequest(a), EndPoll, SendReply(b)];
            Disciplined(cfg, Start, acts) && Views(cfg, Start, acts) == Nested
  {
    var v1 := View(None, [InPoll(Sending(a))]);
    var v2 := View(None, [InRequest(FromFixed(Medium), 0, None)]);
    assert Advance(cfg, v2, SendReply(b)) == Nested by {
      assert Become(v2, Replied(Here(v2))).ctx == [InRequest(FromFixed(Medium), 1, None)];
    }
    ViewCons(cfg, v2, SendReply(b), [], Nested);
    assert Advance(cfg, v1, EndPoll) == v2 by { assert v1.ctx[..0] == []; }
    ViewCons(cfg, v1, EndPoll, [SendReply(b)], v2);
    ViewCons(cfg, Start, SendRequest(a), [EndPoll, SendReply(b)], v1);
    assert [SendReply(b)] + [] == [SendReply(b)];
    assert [EndPoll] + [SendReply(b)] == [EndPoll, SendReply(b)];
    assert [SendRequest(a)] + [EndPoll, SendReply(b)] == [SendRequest(a), EndPoll, SendReply(b)];
  }

  lemma {:induction false} ViewCons(cfg: Config, v: View, act: Action, rest: seq<Action>, w: View)
    requires Permitted(cfg, v, act) && Advance(cfg, v, act) == w && Disciplined(cfg, w, rest)
    ensures Disciplined(cfg, v, [act] + rest) && Views(cfg, v, [act] + rest) == Views(cfg, w, rest)
  {
    assert ([act] + rest)[1..] == rest;
  }

  // ----- where request and reply differ ------------------------------------------------

  /** The LEAST flag that goes with the other choice of buffer. */
  predicate OppositeLeast(a: PrepArgs) { if a.cbuf != 0 then a.flags.leastAlloc else a.flags.leastClient }

  /** A request whose arguments are fine but for its flags is fatal exactly when it
      has the LEAST flag of the other buffer choice: flags are checked before they are
      cleared.  The other LEAST flag makes no difference. */
  lemma {:induction false} LeastFlagOnRequest(cfg: Config, v: View, s: State, a: PrepArgs)
    requires ConfigOk(cfg) && Related(cfg, v, s) && AtTop(v) && v.req.None? && a.cat != Short
    requires PrepOk(cfg, true, a.dest, a.(flags := Cleared(a.flags)))
    ensures DoPrepareRequest(cfg, s, a).Fatal? <==> OppositeLeast(a)
    ensures !OppositeLeast(a) ==> DoPrepareRequest(cfg, s, a) == DoPrepareRequest(cfg, s, a.(flags := Cleared(a.flags)))
  {
    if !OppositeLeast(a) {
      assert CheckFlags(a.cbuf, a.flags) == CheckFlags(a.cbuf, Cleared(a.flags));
      FinishPrepareGood(cfg, WithSd(s, true, s.req.sd.(active := true, gexBuf := 0)), true, a.dest, a);
    }
  }

  /** A reply's flags are cleared first, so no LEAST flag makes a difference. */
  lemma {:induction false} LeastFlagOnReply(cfg: Config, s: State, a: PrepArgs)
    requires cfg.align > 0 && InHandler(s)
    ensures DoPrepareReply(cfg, s, a) == DoPrepareReply(cfg, s, a.(flags := Cleared(a.flags)))
  {
    assert Cleared(Cleared(a.flags)) == Cleared(a.flags);
  }
}
