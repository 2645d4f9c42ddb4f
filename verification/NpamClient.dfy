/** What a disciplined client may do, told without descriptors, buffers or flags:
    a protocol over "what I hold" and "where I am", and the relation that ties it
    to the library's state. */
module NpamClient {
  import opened Dispatch
  import opened Npam

  /** A Prepare that has been granted. */
  datatype Prep = Prep(cat: Category, dest: Dest, cbuf: Ptr, size: nat, destAddr: Ptr, lc: LcOpt, flags: Flags, nargs: nat)

  datatype Source = FromNetwork(rank: nat) | FromFixed(cat: Category) | FromPrepared(prep: Prep)

  datatype Ctx =
    | InPoll(call: Call)
    | InCommit(prep: Prep, commit: CommitArgs)
    | InRequest(source: Source, replies: nat, rep: Option<Prep>)
    | InReply(source: Source)

  datatype View = View(req: Option<Prep>, ctx: seq<Ctx>)

  // ----- assumptions on the job ---------------------------------------------------

  /** A LEAST flag never raises the conduit's limit; an allocating limit, and any
      limit within the process, stays within what the buffers hold. */
  predicate LimitAt(cfg: Config, isReq: bool, cat: Category, dest: Dest, lc: LcOpt, f: Flags, nargs: nat) {
    var n := cfg.limit(isReq, cat, dest, lc, f, nargs);
    && n <= cfg.limit(isReq, cat, dest, lc, Cleared(f), nargs)
    && (f.leastAlloc ==> n <= cfg.maxMedium)
    && (dest.Local? && cat == Medium ==> n <= cfg.maxMedium)
    && (dest.Local? && cat == Long ==> n <= cfg.maxLong)
  }

  ghost predicate ConfigOk(cfg: Config) {
    && cfg.align > 0 && cfg.mallocAt > 0 && cfg.mallocAt % cfg.align == 0
    && forall isReq, cat, dest, lc, f, nargs :: LimitAt(cfg, isReq, cat, dest, lc, f, nargs)
  }

  // ----- the discipline ---------------------------------------------------------------

  predicate AtTop(v: View) { v.ctx == [] }

  function Here(v: View): Ctx
    requires v.ctx != []
  {
    v.ctx[|v.ctx| - 1]
  }

  predicate InRequestHandler(v: View) { v.ctx != [] && Here(v).InRequest? }

  /** The client has control. */
  predicate ClientTurn(v: View) { v.ctx == [] || Here(v).InRequest? || Here(v).InReply? }

  function Origin(src: Source): Dest { if src.FromNetwork? then Remote(src.rank) else Local }

  predicate Callable(cfg: Config, handler: nat, args: seq<int>, cat: Category, isReq: bool) {
    CallOk(cfg.handlers(handler), |args|, cat, isReq)
  }

  /** Payload pointers the client vouches for are real when bytes move. */
  predicate SendOk(cfg: Config, isReq: bool, dest: Dest, a: SendArgs) {
    |a.args| <= cfg.maxArgs &&
    (!BadArg(cfg, isReq, dest, a) && dest.Local? ==>
       && Callable(cfg, a.handler, a.args, a.cat, isReq)
       && (a.cat == Long && Narrow(a.nbytes) != 0 ==> a.destAddr != 0))
  }

  /** The arguments of Commit match its Prepare. */
  predicate CommitArgsOk(cfg: Config, isReq: bool, p: Prep, c: CommitArgs) {
    && c.cat == p.cat && |c.args| == p.nargs && c.nbytes <= p.size && !c.otherFlags
    && (p.destAddr != 0 ==>
          DestAddrOf(c.cat, c.destAddr) == p.destAddr || (DestAddrOf(c.cat, c.destAddr) == 0 && c.nbytes == 0))
    && (p.dest.Local? ==> Callable(cfg, c.handler, c.args, c.cat, isReq))
    && (p.dest.Local? && c.cat == Long && c.nbytes != 0 ==> c.destAddr != 0)
  }

  /** The conduit refuses only what was sent as IMMEDIATE. */
  predicate ConduitOk(p: Prep, c: CommitArgs) { p.dest.Remote? ==> c.accepted || c.immediate }

  predicate CommitMatches(cfg: Config, isReq: bool, p: Prep, c: CommitArgs) { CommitArgsOk(cfg, isReq, p, c) && ConduitOk(p, c) }

  /** A request handler sends at most one reply and no request, a reply handler
      sends nothing, every Prepare is ended by Commit or Cancel, and nothing else is
      sent or polled in between. */
  predicate Permitted(cfg: Config, v: View, act: Action) {
    match act
    case Store(_, _) => ClientTurn(v)
    case Poll => AtTop(v) && v.req.None?
    case SendRequest(a) => AtTop(v) && v.req.None? && SendOk(cfg, true, a.dest, a)
    case PrepareRequest(a) => AtTop(v) && v.req.None? && a.cat != Short && PrepOk(cfg, true, a.dest, a)
    case CommitRequest(c) => AtTop(v) && v.req.Some? && CommitMatches(cfg, true, v.req.value, c)
    case CancelRequest(cat) => AtTop(v) && v.req.Some? && v.req.value.cat == cat
    case SendReply(a) =>
      InRequestHandler(v) && Here(v).replies == 0 && Here(v).rep.None? && SendOk(cfg, false, Origin(Here(v).source), a)
    case PrepareReply(a) =>
      InRequestHandler(v) && Here(v).replies == 0 && Here(v).rep.None? && a.cat != Short &&
      PrepOk(cfg, false, Origin(Here(v).source), a.(flags := Cleared(a.flags)))
    case CommitReply(c) => InRequestHandler(v) && Here(v).rep.Some? && CommitMatches(cfg, false, Here(v).rep.value, c)
    case CancelReply(cat) => InRequestHandler(v) && Here(v).rep.Some? && Here(v).rep.value.cat == cat
    case Return => v.ctx != [] && (Here(v).InReply? || (Here(v).InRequest? && Here(v).rep.None?))
    case Arrive(_, _, _, _, _, _) => !ClientTurn(v)
    case EndPoll => !ClientTurn(v)
  }

  // ----- how the client's view moves ---------------------------------------------------

  /** The grant: the size is the least of what was asked and what there is. */
  function Grant(cfg: Config, isReq: bool, dest: Dest, a: PrepArgs): Prep {
    var f := Cleared(a.flags);
    var size := if dest.Remote? then Min(a.most, cfg.limit(isReq, a.cat, dest, a.lc, LimitFlags(a.cbuf, f), a.nargs))
                else Min(if a.cat == Long && a.cbuf != 0 then cfg.maxLong else cfg.maxMedium, a.most);
    Prep(a.cat, dest, a.cbuf, size, DestAddrOf(a.cat, a.destAddr), a.lc, f, a.nargs)
  }

  function Enter(v: View, c: Ctx): View { v.(ctx := v.ctx + [c]) }

  function Leave(v: View): View
    requires v.ctx != []
  {
    v.(ctx := v.ctx[..|v.ctx| - 1])
  }

  function Become(v: View, c: Ctx): View
    requires v.ctx != []
  {
    v.(ctx := v.ctx[..|v.ctx| - 1] + [c])
  }

  function Replied(c: Ctx): Ctx
    requires c.InRequest?
  {
    InRequest(c.source, c.replies + 1, None)
  }

  function Advance(cfg: Config, v: View, act: Action): View
    requires Permitted(cfg, v, act)
  {
    match act
    case Store(_, _) => v
    case Poll => Enter(v, InPoll(JustPoll))
    case SendRequest(a) => if BadArg(cfg, true, a.dest, a) then v else Enter(v, InPoll(Sending(a)))
    case PrepareRequest(a) => Enter(v, InPoll(Preparing(a)))
    case CommitRequest(c) =>
      var p := v.req.value;
      Enter(v.(req := None), if p.dest.Local? then InRequest(FromPrepared(p), 0, None) else InCommit(p, c))
    case CancelRequest(_) => v.(req := None)
    case SendReply(a) =>
      var c := Here(v);
      if BadArg(cfg, false, Origin(c.source), a) then v
      else if c.source.FromNetwork? then Become(v, Replied(c))
      else Enter(Become(v, Replied(c)), InReply(FromFixed(a.cat)))
    case PrepareReply(a) => var c := Here(v); Become(v, c.(rep := Some(Grant(cfg, false, Origin(c.source), a))))
    case CommitReply(cm) =>
      var c := Here(v);
      var p := c.rep.value;
      if p.dest.Local? then Enter(Become(v, Replied(c)), InReply(FromPrepared(p)))
      else if cm.accepted then Become(v, Replied(c))
      else v
    case CancelReply(_) => Become(v, Here(v).(rep := None))
    case Return => Leave(v)
    case Arrive(isReq, from, _, _, _, _) => Enter(v, if isReq then InRequest(FromNetwork(from), 0, None) else InReply(FromNetwork(from)))
    case EndPoll =>
      match Here(v)
      case InPoll(JustPoll) => Leave(v)
      case InPoll(Preparing(a)) => Leave(v).(req := Some(Grant(cfg, true, a.dest, a)))
      case InPoll(Sending(a)) => if a.dest.Local? then Enter(Leave(v), InRequest(FromFixed(a.cat), 0, None)) else Leave(v)
      case InCommit(p, c) => if c.accepted then Leave(v) else Leave(v).(req := Some(p))
      case _ => v
  }

  ghost predicate Disciplined(cfg: Config, v: View, acts: seq<Action>)
    decreases |acts|
  {
    acts == [] || (Permitted(cfg, v, acts[0]) && Disciplined(cfg, Advance(cfg, v, acts[0]), acts[1..]))
  }

  function Views(cfg: Config, v: View, acts: seq<Action>): View
    requires Disciplined(cfg, v, acts)
    decreases |acts|
  {
    if acts == [] then v else Views(cfg, Advance(cfg, v, acts[0]), acts[1..])
  }

  const Start: View := View(None, [])

  // ----- the relation ------------------------------------------------------------------

  /** Does this Prepare hold the thread's buffer?  Every loopback Medium does, and
      everything the client gave no buffer for. */
  predicate UsesBuf(p: Prep) { (p.dest.Local? && p.cat == Medium) || p.cbuf == 0 }

  /** What every grant satisfies. */
  predicate Granted(cfg: Config, p: Prep) { p.nargs <= cfg.maxArgs && (UsesBuf(p) ==> p.size <= cfg.maxMedium) }

  predicate SdIs(cfg: Config, h: Half, p: Prep, active: bool) {
    var sd, buf := h.sd, h.buf;
    && sd.active == active && Granted(cfg, p)
    && sd.category == p.cat && p.cat != Short && sd.size == p.size && sd.nargs == p.nargs && sd.destAddr == p.destAddr
    && sd.isNbrhd == p.dest.Local?
    && (UsesBuf(p) ==> buf != 0)
    && sd.gexBuf == (if p.cbuf == 0 then buf else 0)
    && sd.addr == (if p.cbuf == 0 then buf else p.cbuf)
    && sd.toFree == (if p.cbuf == 0 && !(p.dest.Local? && p.cat == Medium) then buf else 0)
    && (p.dest.Local? && p.cat == Medium ==> sd.voidP == buf)
    && (p.dest.Remote? ==> sd.dest == p.dest && sd.lcOpt == p.lc && sd.flags == p.flags)
  }

  predicate Idle(sd: SrcDesc) { !sd.active && sd.toFree == 0 }

  /** The request Prepare whose Commit is under way. */
  function ReqInCommit(v: View): Option<Prep> {
    if v.ctx == [] then None
    else if v.ctx[0].InCommit? then Some(v.ctx[0].prep)
    else if v.ctx[0].InRequest? && v.ctx[0].source.FromPrepared? then Some(v.ctx[0].source.prep)
    else None
  }

  predicate FixedMedium(c: Ctx) { (c.InRequest? || c.InReply?) && c.source.FromFixed? && c.source.cat == Medium }

  function RepHeld(v: View): Option<Prep> {
    if v.ctx != [] && Here(v).InRequest? then Here(v).rep else None
  }

  function RepInCommit(v: View): Option<Prep> {
    if v.ctx != [] && Here(v).InReply? && Here(v).source.FromPrepared? then Some(Here(v).source.prep) else None
  }

  predicate Side(cfg: Config, h: Half, held: Option<Prep>, inCommit: Option<Prep>, fixedMedium: bool) {
    && (held.Some? ==> inCommit.None? && SdIs(cfg, h, held.value, true))
    && (inCommit.Some? ==> SdIs(cfg, h, inCommit.value, false))
    && (held.None? && inCommit.None? ==> Idle(h.sd))
    && h.live == ((held.Some? && UsesBuf(held.value)) || (inCommit.Some? && UsesBuf(inCommit.value)) || fixedMedium)
    && (h.live ==> h.buf != 0)
  }

  predicate ReqSide(cfg: Config, v: View, h: Half) {
    Side(cfg, h, v.req, ReqInCommit(v), v.ctx != [] && v.ctx[0].InRequest? && FixedMedium(v.ctx[0]))
  }

  predicate RepSide(cfg: Config, v: View, h: Half) {
    Side(cfg, h, RepHeld(v), RepInCommit(v), v.ctx != [] && Here(v).InReply? && FixedMedium(Here(v)))
  }

  predicate Buffers(cfg: Config, s: State)
    requires cfg.align > 0
  {
    || (s.req.buf == 0 && s.rep.buf == 0)
    || (s.req.buf == cfg.mallocAt && s.rep.buf == ReplyAt(cfg) && cfg.mallocAt != 0)
  }

  function SourceCat(src: Source): Category
    requires !src.FromNetwork?
  {
    if src.FromFixed? then src.cat else src.prep.cat
  }

  /** What is to be done after the handler is what its message calls for. */
  predicate AfterIs(buf: Ptr, isReq: bool, src: Source, after: After) {
    if src.FromNetwork? then after.AfterNetwork?
    else
      && after.AfterLoopback? && after.category == SourceCat(src) && after.isFixed == src.FromFixed?
      && (after.category == Medium ==> after.buf == buf)
      && after.postReply == (!isReq && src.FromFixed?)
      && (src.FromPrepared? ==> src.prep.dest.Local?)
  }

  predicate ReqFrame(buf: Ptr, c: Ctx, f: Frame)
    requires c.InRequest?
  {
    && f.Handler? && f.isReq && f.from == Origin(c.source) && f.replies == c.replies && c.replies <= 1
    && AfterIs(buf, true, c.source, f.after)
    && (c.rep.Some? ==> c.replies == 0 && c.rep.value.dest == f.from)
  }

  predicate RepFrame(buf: Ptr, c: Ctx, f: Frame)
    requires c.InReply?
  {
    f.Handler? && !f.isReq && f.from == Origin(c.source) && f.replies == 0 && AfterIs(buf, false, c.source, f.after)
  }

  predicate PollFrame(cfg: Config, v: View, c: Ctx, f: Frame)
    requires c.InPoll? || c.InCommit?
  {
    && f.Polling? && v.req.None?
    && (c.InPoll? ==>
         && f.call == c.call && !c.call.Committing?
         && (c.call.Sending? ==> |c.call.send.args| <= cfg.maxArgs && !BadArg(cfg, true, c.call.send.dest, c.call.send)))
    && (c.InCommit? ==> f.call == Committing(c.commit) && c.prep.dest.Remote? && CommitArgsOk(cfg, true, c.prep, c.commit))
  }

  /** The call stack has one of six shapes. */
  predicate Stack(cfg: Config, v: View, s: State) {
    && |s.stack| == |v.ctx| <= 2
    && (|v.ctx| == 0 ==> !s.req.running && !s.rep.running)
    && (|v.ctx| > 0 ==> v.req.None?)
    && (|v.ctx| == 1 ==>
         var c, f := v.ctx[0], s.stack[0];
         && !c.InReply? && !s.rep.running && s.req.running == c.InRequest?
         && (c.InPoll? || c.InCommit? ==> PollFrame(cfg, v, c, f))
         && (c.InRequest? ==> !c.source.FromNetwork? && ReqFrame(s.req.buf, c, f) && f.replyIssued == (c.replies > 0 || c.rep.Some?)))
    && (|v.ctx| == 2 ==>
         var b, g, c, f := v.ctx[0], s.stack[0], v.ctx[1], s.stack[1];
         && (c.InRequest? || c.InReply?)
         && s.rep.running == c.InReply? && s.req.running == (b.InRequest? || c.InRequest?)
         && (c.InRequest? ==> !b.InRequest? && c.source.FromNetwork? && ReqFrame(s.req.buf, c, f))
         && (c.InReply? ==> RepFrame(s.rep.buf, c, f) && c.source.FromNetwork? == !b.InRequest?)
         && !b.InReply?
         && (b.InPoll? || b.InCommit? ==> PollFrame(cfg, v, b, g))
         && (b.InRequest? ==> !b.source.FromNetwork? && ReqFrame(s.req.buf, b, g) && b.replies == 1
                              && (g.replyIssued || (f.Handler? && f.after.AfterLoopback? && f.after.postReply))))
  }

  /** The library's state is what the client's view says, whatever the arguments of
      the call that a poll interrupts. */
  predicate Consistent(cfg: Config, v: View, s: State)
    requires cfg.align > 0
  {
    Buffers(cfg, s) && Stack(cfg, v, s) && ReqSide(cfg, v, s.req) && RepSide(cfg, v, s.rep)
  }

  /** The arguments of the interrupted call are such that it can go on. */
  predicate PendingOk(cfg: Config, v: View) {
    v.ctx != [] ==>
      match v.ctx[0]
      case InPoll(Preparing(a)) => a.cat != Short && PrepOk(cfg, true, a.dest, a)
      case InPoll(Sending(a)) => SendOk(cfg, true, a.dest, a)
      case InCommit(p, c) => ConduitOk(p, c)
      case _ => true
  }

  predicate Related(cfg: Config, v: View, s: State)
    requires cfg.align > 0
  {
    Consistent(cfg, v, s) && PendingOk(cfg, v)
  }
}
