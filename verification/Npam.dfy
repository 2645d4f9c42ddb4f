/** Active messages with negotiated payload, as one thread executes them: the two
    source descriptors, the two medium buffers, the handler counters and the call
    stack, changed step by step.  Every assertion and fatal error of the debug
    build is a Fatal result here. */
module Npam {
  import opened Dispatch

  type Byte = x: int | 0 <= x < 256
  type Ptr = nat // 0 is the null pointer

  datatype Option<T> = None | Some(value: T)

  /** Stuck: the action makes no sense here (no such handler is running, or the
      library and not the client has control). */
  datatype Result = Next(value: State) | Fatal | Stuck {
    predicate IsFailure() { !Next? }
    function PropagateFailure(): Result { this }
    function Extract(): State
      requires !IsFailure()
    {
      value
    }
  }

  /** The thread's state and a descriptor that is not, or not yet, stored in it. */
  datatype SdResult = Both(state: State, sd: SrcDesc) | SdFatal

  // ----- parameters of the job --------------------------------------------

  datatype LcOpt = LcNull | LcNow | LcGroup | LcDefer | LcEvent(at: Ptr)
  datatype Flags = Flags(immediate: bool, leastClient: bool, leastAlloc: bool)
  datatype Dest = Local | Remote(rank: nat)

  /** maxMedium is also the largest payload buffer Prepare hands out; limit is the
      conduit's maximum-payload function; mallocAt is where the aligned allocation
      of the two buffers lands. */
  datatype Config = Config(
    maxMedium: nat, maxLong: nat, maxArgs: nat, align: nat, mallocAt: nat, rank: nat,
    segLow: nat, segHigh: nat,
    handlers: nat -> Entry,
    limit: (bool, Category, Dest, LcOpt, Flags, nat) -> nat)

  function Min(a: nat, b: nat): nat { if a <= b then a else b }

  function AlignUp(n: nat, align: nat): nat
    requires align > 0
  {
    var up := n + align - 1;
    up - up % align
  }

  /** Where the reply buffer starts. */
  function ReplyAt(cfg: Config): nat
    requires cfg.align > 0
  {
    cfg.mallocAt + AlignUp(cfg.maxMedium, cfg.align)
  }

  // ----- memory ------------------------------------------------------------

  function Read(mem: seq<Byte>, a: nat, n: nat): (r: seq<Byte>)
    ensures |r| == n
  {
    seq(n, i requires i >= 0 => if a + i < |mem| then mem[a + i] else 0)
  }

  function Write(mem: seq<Byte>, a: nat, bytes: seq<Byte>): (r: seq<Byte>)
    ensures |r| == |mem|
    ensures forall i :: 0 <= i < |mem| ==> r[i] == if a <= i < a + |bytes| then bytes[i - a] else mem[i]
  {
    seq(|mem|, i requires 0 <= i < |mem| => if a <= i < a + |bytes| then bytes[i - a] else mem[i])
  }

  /** A size_t passed through an int parameter and back. */
  function Narrow(n: nat): nat {
    var low := n % 0x1_0000_0000;
    if low < 0x8000_0000 then low else low + 0xffff_ffff_0000_0000
  }

  // ----- state -------------------------------------------------------------

  datatype SrcDesc = SrcDesc(
    active: bool, category: Category, addr: Ptr, size: nat, toFree: Ptr, gexBuf: Ptr, voidP: Ptr,
    destAddr: Ptr, isNbrhd: bool, dest: Dest, lcOpt: LcOpt, flags: Flags, nargs: nat)

  datatype PrepArgs = PrepArgs(cat: Category, dest: Dest, cbuf: Ptr, least: nat, most: nat, destAddr: Ptr,
                               lc: LcOpt, flags: Flags, nargs: nat)
  datatype SendArgs = SendArgs(cat: Category, dest: Dest, handler: nat, src: Ptr, nbytes: nat, destAddr: Ptr, args: seq<int>)

  /** accepted is the conduit's answer when the message goes to the network. */
  datatype CommitArgs = CommitArgs(cat: Category, handler: nat, nbytes: nat, destAddr: Ptr, immediate: bool,
                                   otherFlags: bool, args: seq<int>, accepted: bool)

  /** The library call during which a poll runs. */
  datatype Call = JustPoll | Preparing(prep: PrepArgs) | Sending(send: SendArgs) | Committing(commit: CommitArgs)

  /** What is left to do when a handler returns. */
  datatype After = AfterNetwork | AfterLoopback(isFixed: bool, category: Category, buf: Ptr, postReply: bool)

  /** replies is history: how many replies to this token were delivered. */
  datatype Frame =
    | Polling(call: Call)
    | Handler(isReq: bool, from: Dest, replyIssued: bool, replies: nat, after: After)

  datatype Event =
    | Ran(isReq: bool, from: Dest, entry: Entry, category: Category, payload: seq<Byte>, args: seq<int>)
    | Injected(isReq: bool, to: Dest, handler: nat, category: Category, payload: seq<Byte>, destAddr: Ptr, args: seq<int>,
               lc: LcOpt, flags: Flags)

  /** What a thread has once for requests and once for replies: the descriptor, the
      medium buffer, whether the buffer is live, whether such a handler is running. */
  datatype Half = Half(sd: SrcDesc, buf: Ptr, live: bool, running: bool)

  datatype State = State(mem: seq<Byte>, req: Half, rep: Half, stack: seq<Frame>, log: seq<Event>)

  function Of(s: State, isReq: bool): Half { if isReq then s.req else s.rep }

  function With(s: State, isReq: bool, h: Half): State { if isReq then s.(req := h) else s.(rep := h) }

  function WithSd(s: State, isReq: bool, sd: SrcDesc): State { With(s, isReq, Of(s, isReq).(sd := sd)) }

  function Push(s: State, f: Frame): State { s.(stack := s.stack + [f]) }

  function Pop(s: State): State
    requires s.stack != []
  {
    s.(stack := s.stack[..|s.stack| - 1])
  }

  function Top(s: State): Frame
    requires s.stack != []
  {
    s.stack[|s.stack| - 1]
  }

  function WithTop(s: State, f: Frame): State
    requires s.stack != []
  {
    s.(stack := s.stack[..|s.stack| - 1] + [f])
  }

  // ----- context checks -----------------------------------------------------

  /** gasneti_check_inject with gasneti_checknpam: may this thread communicate? */
  predicate CheckInject(s: State, forReply: bool) {
    && !s.rep.running
    && (s.req.running ==> forReply)
    && !s.rep.sd.active
    && (s.req.sd.active ==> forReply)
  }

  /** The "no recursion" counter of GASNETI_HANDLER_ENTER and _LEAVE. */
  function EnterHandler(s: State, isReq: bool): Result {
    if Of(s, isReq).running then Fatal else Next(With(s, isReq, Of(s, isReq).(running := true)))
  }

  function LeaveHandler(s: State, isReq: bool): Result {
    if !Of(s, isReq).running then Fatal else Next(With(s, isReq, Of(s, isReq).(running := false)))
  }

  // ----- buffers --------------------------------------------------------------

  /** Both buffers are allocated together, on first use. */
  function Allocated(cfg: Config, s: State): State
    requires cfg.align > 0
  {
    if s.req.buf == 0 then s.(req := s.req.(buf := cfg.mallocAt), rep := s.rep.(buf := ReplyAt(cfg))) else s
  }

  function AllocBuf(cfg: Config, s: State, isReq: bool): Result
    requires cfg.align > 0
  {
    var s := Allocated(cfg, s);
    if Of(s, isReq).live then Fatal else Next(With(s, isReq, Of(s, isReq).(live := true)))
  }

  function FreeBuf(s: State, buf: Ptr, isReq: bool): Result {
    if buf == Of(s, isReq).buf && Of(s, isReq).live then Next(With(s, isReq, Of(s, isReq).(live := false))) else Fatal
  }

  function FreeNpam(s: State, isReq: bool): Result {
    if Of(s, isReq).sd.toFree == 0 then Fatal
    else
      var s :- FreeBuf(s, Of(s, isReq).sd.toFree, isReq);
      Next(WithSd(s, isReq, Of(s, isReq).sd.(toFree := 0)))
  }

  // ----- descriptors --------------------------------------------------------

  function InitSd(s: State, isReq: bool): Result {
    if Of(s, isReq).sd.active || !CheckInject(s, !isReq) then Fatal
    else if isReq && s.req.sd.toFree != 0 then Fatal
    else Next(WithSd(s, isReq, Of(s, isReq).sd.(active := true, gexBuf := 0)))
  }

  function ResetSd(s: State, isReq: bool): Result {
    if !Of(s, isReq).sd.active then Fatal else Next(WithSd(s, isReq, Of(s, isReq).sd.(active := false)))
  }

  // ----- Prepare ---------------------------------------------------------------

  function Cleared(f: Flags): Flags { f.(leastClient := false, leastAlloc := false) }

  function CheckFlags(cbuf: Ptr, f: Flags): Flags { if cbuf != 0 then f.(leastClient := true) else f.(leastAlloc := true) }

  function LimitFlags(cbuf: Ptr, f: Flags): Flags { if cbuf != 0 then f else f.(leastAlloc := true) }

  predicate LcOk(isReq: bool, cbuf: Ptr, lc: LcOpt) {
    if cbuf == 0 then lc.LcNull? else lc.LcEvent? || lc.LcNow? || (isReq && lc.LcGroup?)
  }

  /** The argument checks of Prepare; flags as they are when the check runs. */
  predicate PrepOk(cfg: Config, isReq: bool, dest: Dest, a: PrepArgs) {
    var f := CheckFlags(a.cbuf, a.flags);
    && !(f.leastClient && f.leastAlloc)
    && LcOk(isReq, a.cbuf, a.lc)
    && a.nargs <= cfg.maxArgs
    && a.least <= a.most
    && a.least <= cfg.limit(isReq, a.cat, dest, a.lc, f, a.nargs)
  }

  /** The assertions on what Prepare returns. */
  predicate SdOk(cfg: Config, a: PrepArgs, sd: SrcDesc)
    requires cfg.align > 0
  {
    && (if a.cbuf != 0 then sd.addr == a.cbuf else sd.addr % cfg.align == 0)
    && a.least <= sd.size <= a.most
  }

  function DestAddrOf(cat: Category, d: Ptr): Ptr { if cat == Long then d else 0 }

  /** alloc_npam_buffer, on a descriptor that is not yet stored. */
  function AllocNpam(cfg: Config, s: State, sd: SrcDesc, isReq: bool): SdResult
    requires cfg.align > 0
  {
    if sd.size > cfg.maxMedium then SdFatal
    else
      match AllocBuf(cfg, s, isReq)
      case Next(s) => Both(s, sd.(gexBuf := Of(s, isReq).buf, addr := Of(s, isReq).buf))
      case _ => SdFatal
  }

  function ToFree(r: SdResult): SdResult { if r.Both? then Both(r.state, r.sd.(toFree := r.sd.gexBuf)) else r }

  /** loopback_prepare_inner: the same code for fixed payload, where the descriptor
      is a local of the caller. */
  function PrepareInner(cfg: Config, s: State, sd: SrcDesc, isFixed: bool, isReq: bool, cat: Category,
                        cbuf: Ptr, most: nat, nargs: nat): SdResult
    requires cfg.align > 0
  {
    var r := TakeBuffer(cfg, s, sd, isReq, cat, nargs);
    if r.Both? then PreparePayload(cfg, r.state, r.sd, isFixed, isReq, cat, cbuf, most) else r
  }

  /** A Medium takes the thread's buffer, whoever provides the payload. */
  function TakeBuffer(cfg: Config, s: State, sd: SrcDesc, isReq: bool, cat: Category, nargs: nat): SdResult
    requires cfg.align > 0
  {
    if cat != Medium then Both(s, sd.(nargs := nargs))
    else
      match AllocBuf(cfg, s, isReq)
      case Next(s) => Both(s, sd.(nargs := nargs, voidP := Of(s, isReq).buf))
      case _ => SdFatal
  }

  function PreparePayload(cfg: Config, s: State, sd: SrcDesc, isFixed: bool, isReq: bool, cat: Category, cbuf: Ptr, most: nat): SdResult
    requires cfg.align > 0
  {
    if sd.toFree != 0 then SdFatal
    else if isFixed then Both(s, sd.(addr := cbuf))
    else if cbuf != 0 then Both(s, sd.(size := Min(if cat == Medium then cfg.maxMedium else cfg.maxLong, most), addr := cbuf))
    else if cat == Medium then Both(s, sd.(size := Min(cfg.maxMedium, most), addr := sd.voidP, gexBuf := sd.voidP))
    else ToFree(AllocNpam(cfg, s, sd.(size := Min(cfg.maxMedium, most)), isReq))
  }

  /** prepare_common: the descriptor of a message for the network. */
  function PrepareRemote(cfg: Config, s: State, sd: SrcDesc, isReq: bool, dest: Dest, a: PrepArgs): SdResult
    requires cfg.align > 0
  {
    var size := Min(a.most, cfg.limit(isReq, a.cat, dest, a.lc, LimitFlags(a.cbuf, a.flags), a.nargs));
    var sd := sd.(isNbrhd := false, dest := dest, lcOpt := a.lc, flags := a.flags, nargs := a.nargs, size := size);
    if a.cbuf != 0 then Both(s, sd.(addr := a.cbuf, toFree := 0)) else ToFree(AllocNpam(cfg, s, sd, isReq))
  }

  /** From the argument checks on; the flags have been cleared. */
  function FinishPrepare(cfg: Config, s: State, isReq: bool, dest: Dest, a: PrepArgs): Result
    requires cfg.align > 0
  {
    var sd := Of(s, isReq).sd.(category := a.cat, destAddr := DestAddrOf(a.cat, a.destAddr), nargs := a.nargs);
    match if dest.Local? then PrepareInner(cfg, s, sd.(isNbrhd := true, dest := Local), false, isReq, a.cat, a.cbuf, a.most, a.nargs)
          else PrepareRemote(cfg, s, sd, isReq, dest, a)
    case Both(s, sd) => if SdOk(cfg, a, sd) then Next(WithSd(s, isReq, sd)) else Fatal
    case SdFatal => Fatal
  }

  function DoPrepareRequest(cfg: Config, s: State, a: PrepArgs): Result
    requires cfg.align > 0
  {
    var s :- InitSd(s, true);
    if !PrepOk(cfg, true, a.dest, a) then Fatal
    else FinishPrepare(cfg, s, true, a.dest, a.(flags := Cleared(a.flags)))
  }

  /** The flags are cleared before the checks here, and after them for a request. */
  function DoPrepareReply(cfg: Config, s: State, a: PrepArgs): Result
    requires cfg.align > 0 && s.stack != [] && Top(s).Handler?
  {
    var f, a := Top(s), a.(flags := Cleared(a.flags));
    var s :- InitSd(s, false);
    if !PrepOk(cfg, false, f.from, a) then Fatal
    else if f.from.Local? then
      if !f.isReq || f.replyIssued then Fatal
      else
        var s :- FinishPrepare(cfg, s, false, Local, a);
        if s.stack == [] then Fatal else Next(WithTop(s, f.(replyIssued := true)))
    else FinishPrepare(cfg, s, false, f.from, a)
  }

  // ----- delivery -----------------------------------------------------------------

  /** One more reply has reached the token of the running request handler. */
  function CountReply(s: State, isReq: bool): State {
    if !isReq && s.stack != [] && Top(s).Handler? then WithTop(s, Top(s).(replies := Top(s).replies + 1)) else s
  }

  /** Where commit_inner leaves the payload, and memory after it. */
  function Stage(s: State, sd: SrcDesc, isFixed: bool, cat: Category, nbytes: nat, destAddr: Ptr): (Ptr, seq<Byte>) {
    match cat
    case Short => (0, s.mem)
    case Medium =>
      (sd.voidP, if isFixed || sd.voidP != sd.addr then Write(s.mem, sd.voidP, Read(s.mem, sd.addr, nbytes)) else s.mem)
    case Long => (destAddr, Write(s.mem, destAddr, Read(s.mem, sd.addr, nbytes)))
  }

  /** commit_inner up to the client's handler. */
  function Deliver(cfg: Config, s: State, sd: SrcDesc, isFixed: bool, isReq: bool, cat: Category, handler: nat,
                   nbytes: nat, destAddr: Ptr, args: seq<int>, postReply: bool): Result
    requires cfg.align > 0
  {
    var (buf, mem) := Stage(s, sd, isFixed, cat, nbytes, destAddr);
    var entry := cfg.handlers(handler);
    if |args| > cfg.maxArgs || !CallOk(entry, |args|, cat, isReq) then Fatal
    else if cat != Short && buf == 0 && nbytes != 0 then Fatal
    else if cat == Medium && nbytes != 0 && buf % cfg.align != 0 then Fatal
    else
      var s :- EnterHandler(CountReply(s.(mem := mem), isReq), isReq);
      var payload := if cat == Short then [] else Read(mem, buf, nbytes);
      Next(Push(s.(log := s.log + [Ran(isReq, Local, entry, cat, payload, args)]),
                Handler(isReq, Local, false, 0, AfterLoopback(isFixed, cat, buf, postReply))))
  }

  /** commit_inner from the handler's return on. */
  function Finish(s: State, isReq: bool, after: After): Result {
    if after.AfterNetwork? then Next(s)
    else
      var s :- if after.category == Medium then FreeBuf(s, after.buf, isReq)
               else if !after.isFixed && Of(s, isReq).sd.gexBuf != 0 then FreeNpam(s, isReq)
               else Next(s);
      if after.postReply && s.stack != [] && Top(s).Handler? then Next(WithTop(s, Top(s).(replyIssued := true))) else Next(s)
  }

  function DoReturn(s: State): Result
    requires s.stack != [] && Top(s).Handler?
  {
    var f := Top(s);
    var s :- LeaveHandler(Pop(s), f.isReq);
    Finish(s, f.isReq, f.after)
  }

  // ----- Commit and Cancel -------------------------------------------------------

  predicate CommitOk(sd: SrcDesc, c: CommitArgs) {
    && sd.category == c.cat
    && sd.nargs == |c.args|
    && c.nbytes <= sd.size
    && (sd.destAddr != 0 ==>
          DestAddrOf(c.cat, c.destAddr) == sd.destAddr || (DestAddrOf(c.cat, c.destAddr) == 0 && c.nbytes == 0))
    && !c.otherFlags
  }

  /** Injection into the network, and what follows its answer. */
  function CommitInject(s: State, isReq: bool, c: CommitArgs): Result {
    var sd := Of(s, isReq).sd;
    if !c.accepted then
      if c.immediate then Next(WithSd(s, isReq, sd.(active := true))) else Fatal
    else
      var lc := if sd.lcOpt.LcNull? then LcNow else sd.lcOpt;
      var flags := Cleared(sd.flags).(immediate := c.immediate);
      var e := Injected(isReq, sd.dest, c.handler, c.cat, Read(s.mem, sd.addr, c.nbytes), DestAddrOf(c.cat, c.destAddr), c.args, lc, flags);
      var s := CountReply(s.(log := s.log + [e]), isReq);
      if sd.toFree != 0 then FreeNpam(s, isReq) else Next(s)
  }

  function DoCommit(cfg: Config, s: State, isReq: bool, c: CommitArgs): Result
    requires cfg.align > 0
  {
    var s :- ResetSd(s, isReq);
    var sd := Of(s, isReq).sd;
    if !CommitOk(sd, c) then Fatal
    else if sd.isNbrhd then Deliver(cfg, s, sd, false, isReq, c.cat, c.handler, c.nbytes, DestAddrOf(c.cat, c.destAddr), c.args, false)
    else if isReq then Next(Push(s, Polling(Committing(c))))
    else CommitInject(s, false, c)
  }

  function DoCancel(s: State, isReq: bool, cat: Category): Result {
    var sd := Of(s, isReq).sd;
    if !sd.active || sd.category != cat then Fatal
    else
      var s :- if !sd.isNbrhd then (if sd.toFree != 0 then FreeNpam(s, isReq) else Next(s))
               else
                 var s :- if isReq then Next(s) else CancelToken(s);
                 if cat == Medium then FreeBuf(s, sd.voidP, isReq)
                 else if sd.gexBuf != 0 then FreeNpam(s, isReq)
                 else Next(s);
      ResetSd(s, isReq)
  }

  function CancelToken(s: State): Result {
    if s.stack == [] || !Top(s).Handler? || !Top(s).replyIssued then Fatal
    else Next(WithTop(s, Top(s).(replyIssued := false)))
  }

  // ----- fixed payload --------------------------------------------------------------

  const BlankSd: SrcDesc := SrcDesc(false, Short, 0, 0, 0, 0, 0, 0, false, Local, LcNull, Flags(false, false, false), 0)

  predicate InSegment(cfg: Config, a: Ptr, n: nat) { cfg.segLow <= a && a + n <= cfg.segHigh }

  /** The argument errors that make a fixed-payload call return without sending. */
  predicate BadArg(cfg: Config, isReq: bool, dest: Dest, a: SendArgs) {
    && a.cat != Short
    && (|| a.nbytes > cfg.limit(isReq, a.cat, dest, LcNow, Flags(false, false, false), |a.args|)
        || (a.cat == Long && a.nbytes != 0 && !InSegment(cfg, a.destAddr, a.nbytes)))
  }

  /** loopback_ReqRepGeneric up to the handler; nbytes has gone through an int. */
  function SendLocal(cfg: Config, s: State, isReq: bool, a: SendArgs): Result
    requires cfg.align > 0
  {
    match PrepareInner(cfg, s, BlankSd, true, isReq, a.cat, a.src, 0, |a.args|)
    case SdFatal => Fatal
    case Both(s, sd) => Deliver(cfg, s, sd, true, isReq, a.cat, a.handler, Narrow(a.nbytes), DestAddrOf(a.cat, a.destAddr), a.args, !isReq)
  }

  function SendRemote(s: State, isReq: bool, dest: Dest, a: SendArgs): State {
    var payload := if a.cat == Short then [] else Read(s.mem, a.src, a.nbytes);
    var e := Injected(isReq, dest, a.handler, a.cat, payload, DestAddrOf(a.cat, a.destAddr), a.args, LcNow, Flags(false, false, false));
    CountReply(s.(log := s.log + [e]), isReq)
  }

  function DoSendRequest(cfg: Config, s: State, a: SendArgs): Result {
    if |a.args| > cfg.maxArgs || !CheckInject(s, false) then Fatal
    else if BadArg(cfg, true, a.dest, a) then Next(s)
    else Next(Push(s, Polling(Sending(a))))
  }

  function DoSendReply(cfg: Config, s: State, a: SendArgs): Result
    requires cfg.align > 0 && s.stack != [] && Top(s).Handler?
  {
    var f := Top(s);
    if |a.args| > cfg.maxArgs || !CheckInject(s, true) then Fatal
    else if BadArg(cfg, false, f.from, a) then Next(s)
    else if f.from.Remote? then Next(SendRemote(s, false, f.from, a))
    else if !f.isReq || f.replyIssued then Fatal
    else SendLocal(cfg, s, false, a)
  }

  // ----- the transition function -------------------------------------------------------

  datatype Action =
    | Store(at: Ptr, bytes: seq<Byte>)
    | Poll
    | SendRequest(send: SendArgs)
    | SendReply(send: SendArgs)
    | PrepareRequest(prep: PrepArgs)
    | PrepareReply(prep: PrepArgs)
    | CommitRequest(commit: CommitArgs)
    | CommitReply(commit: CommitArgs)
    | CancelRequest(cat: Category)
    | CancelReply(cat: Category)
    | Return
      // the library's own steps, inside a poll
    | Arrive(isReq: bool, from: nat, handler: nat, category: Category, payload: seq<Byte>, args: seq<int>)
    | EndPoll

  /** Is client code running (not a poll inside a library call)? */
  predicate ClientRuns(s: State) { s.stack == [] || Top(s).Handler? }

  predicate InHandler(s: State) { s.stack != [] && Top(s).Handler? }

  function DoArrive(cfg: Config, s: State, isReq: bool, from: nat, handler: nat, cat: Category,
                    payload: seq<Byte>, args: seq<int>): Result
  {
    var s :- EnterHandler(s, isReq);
    Next(Push(s.(log := s.log + [Ran(isReq, Remote(from), cfg.handlers(handler), cat, payload, args)]),
              Handler(isReq, Remote(from), false, 0, AfterNetwork)))
  }

  function DoEndPoll(cfg: Config, s: State): Result
    requires cfg.align > 0 && s.stack != [] && Top(s).Polling?
  {
    var call, s := Top(s).call, Pop(s);
    match call
    case JustPoll => Next(s)
    case Preparing(a) => DoPrepareRequest(cfg, s, a)
    case Sending(a) => if a.dest.Local? then SendLocal(cfg, s, true, a) else Next(SendRemote(s, true, a.dest, a))
    case Committing(c) => CommitInject(s, true, c)
  }

  function Step(cfg: Config, s: State, act: Action): Result
    requires cfg.align > 0
  {
    if act.Arrive? then
      if ClientRuns(s) then Stuck else DoArrive(cfg, s, act.isReq, act.from, act.handler, act.category, act.payload, act.args)
    else if act.EndPoll? then
      if ClientRuns(s) then Stuck else DoEndPoll(cfg, s)
    else if !ClientRuns(s) then Stuck
    else
      match act
      case Store(at, bytes) => Next(s.(mem := Write(s.mem, at, bytes)))
      case Poll => if CheckInject(s, false) then Next(Push(s, Polling(JustPoll))) else Fatal
      case SendRequest(a) => DoSendRequest(cfg, s, a)
      case SendReply(a) => if InHandler(s) then DoSendReply(cfg, s, a) else Stuck
      case PrepareRequest(a) => Next(Push(s, Polling(Preparing(a))))
      case PrepareReply(a) => if InHandler(s) then DoPrepareReply(cfg, s, a) else Stuck
      case CommitRequest(c) => DoCommit(cfg, s, true, c)
      case CommitReply(c) => DoCommit(cfg, s, false, c)
      case CancelRequest(cat) => DoCancel(s, true, cat)
      case CancelReply(cat) => DoCancel(s, false, cat)
      case Return => if InHandler(s) then DoReturn(s) else Stuck
      case _ => Stuck
  }

  function InitState(mem: seq<Byte>): State {
    State(mem, Half(BlankSd, 0, false, false), Half(BlankSd, 0, false, false), [], [])
  }

  /** A run from s; it ends where a step is not Next. */
  function Run(cfg: Config, s: State, acts: seq<Action>): Result
    requires cfg.align > 0
    decreases |acts|
  {
    if acts == [] then Next(s)
    else
      var s :- Step(cfg, s, acts[0]);
      Run(cfg, s, acts[1..])
  }
}
