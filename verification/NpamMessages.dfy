/** Which message each step sends or delivers, and what it does to memory, told from
    the arguments of the call and what the client holds. */
module NpamMessages {
  import opened Dispatch
  import opened Npam
  import opened NpamClient
  import opened NpamSafety
  import opened NpamDelivery

  // ----- what is to be expected ------------------------------------------------------------

  const NoFlags: Flags := Flags(false, false, false)

  /** A Short has no payload. */
  function Bytes(cat: Category, mem: seq<Byte>, a: nat, n: nat): seq<Byte> { if cat.Short? then [] else Read(mem, a, n) }

  /** Only a Long names a destination. */
  function Target(cat: Category, a: Ptr): Ptr { if cat.Long? then a else 0 }

  /** The thread's buffer of either side. */
  function BufferAt(cfg: Config, isReq: bool): Ptr
    requires cfg.align > 0
  {
    if isReq then cfg.mallocAt else ReplyAt(cfg)
  }

  /** Where the payload of a Prepare is: in the client's buffer if it gave one. */
  function PayloadAt(cfg: Config, p: Prep, isReq: bool): Ptr
    requires cfg.align > 0
  {
    if p.cbuf != 0 then p.cbuf else BufferAt(cfg, isReq)
  }

  function FixedEvent(cfg: Config, mem: seq<Byte>, isReq: bool, to: Dest, a: SendArgs): Event {
    if to.Local? then Ran(isReq, Local, cfg.handlers(a.handler), a.cat, Bytes(a.cat, mem, a.src, Narrow(a.nbytes)), a.args)
    else Injected(isReq, to, a.handler, a.cat, Bytes(a.cat, mem, a.src, a.nbytes), Target(a.cat, a.destAddr), a.args, LcNow, NoFlags)
  }

  function CommitEvent(cfg: Config, mem: seq<Byte>, isReq: bool, p: Prep, c: CommitArgs): Event
    requires cfg.align > 0
  {
    var bytes := Read(mem, PayloadAt(cfg, p, isReq), c.nbytes);
    if p.dest.Local? then Ran(isReq, Local, cfg.handlers(c.handler), p.cat, bytes, c.args)
    else Injected(isReq, p.dest, c.handler, p.cat, bytes, Target(p.cat, c.destAddr), c.args,
                  if p.lc.LcNull? then LcNow else p.lc, Flags(c.immediate, false, false))
  }

  /** The messages of a step: at most one. */
  function Expected(cfg: Config, v: View, mem: seq<Byte>, act: Action): seq<Event>
    requires cfg.align > 0 && Permitted(cfg, v, act)
  {
    match act
    case SendReply(a) =>
      var to := Origin(Here(v).source);
      if BadArg(cfg, false, to, a) then [] else [FixedEvent(cfg, mem, false, to, a)]
    case CommitRequest(c) => if v.req.value.dest.Local? then [CommitEvent(cfg, mem, true, v.req.value, c)] else []
    case CommitReply(c) =>
      if Here(v).rep.value.dest.Local? || c.accepted then [CommitEvent(cfg, mem, false, Here(v).rep.value, c)] else []
    case Arrive(isReq, from, handler, cat, payload, args) => [Ran(isReq, Remote(from), cfg.handlers(handler), cat, payload, args)]
    case EndPoll =>
      (match Here(v)
       case InPoll(Sending(a)) => [FixedEvent(cfg, mem, true, a.dest, a)]
       case InCommit(p, c) => if c.accepted then [CommitEvent(cfg, mem, true, p, c)] else []
       case _ => [])
    case _ => []
  }

  /** Memory after a message within the process: a Medium goes through the thread's
      buffer, a Long to its destination, a Short nowhere. */
  function Placed(cfg: Config, mem: seq<Byte>, isReq: bool, cat: Category, destAddr: Ptr, bytes: seq<Byte>): seq<Byte>
    requires cfg.align > 0
  {
    match cat
    case Short => mem
    case Medium => Write(mem, BufferAt(cfg, isReq), bytes)
    case Long => Write(mem, destAddr, bytes)
  }

  function MemoryAfter(cfg: Config, v: View, mem: seq<Byte>, act: Action): seq<Byte>
    requires cfg.align > 0 && Permitted(cfg, v, act)
  {
    match act
    case Store(at, bytes) => Write(mem, at, bytes)
    case SendReply(a) =>
      if BadArg(cfg, false, Origin(Here(v).source), a) || Here(v).source.FromNetwork? then mem
      else Placed(cfg, mem, false, a.cat, a.destAddr, Read(mem, a.src, Narrow(a.nbytes)))
    case CommitRequest(c) =>
      var p := v.req.value;
      if p.dest.Local? then Placed(cfg, mem, true, p.cat, c.destAddr, Read(mem, PayloadAt(cfg, p, true), c.nbytes)) else mem
    case CommitReply(c) =>
      var p := Here(v).rep.value;
      if p.dest.Local? then Placed(cfg, mem, false, p.cat, c.destAddr, Read(mem, PayloadAt(cfg, p, false), c.nbytes)) else mem
    case EndPoll =>
      if Here(v).InPoll? && Here(v).call.Sending? && Here(v).call.send.dest.Local? then
        var a := Here(v).call.send;
        Placed(cfg, mem, true, a.cat, a.destAddr, Read(mem, a.src, Narrow(a.nbytes)))
      else mem
    case _ => mem
  }

  /** The payload of a message within the process has room where it goes. */
  predicate HasRoom(cfg: Config, mem: seq<Byte>, isReq: bool, cat: Category, nbytes: nat, destAddr: Ptr)
    requires cfg.align > 0
  {
    && (cat.Medium? ==> BufferAt(cfg, isReq) + nbytes <= |mem|)
    && (cat.Long? ==> destAddr + nbytes <= |mem|)
  }

  predicate Room(cfg: Config, v: View, mem: seq<Byte>, act: Action)
    requires cfg.align > 0 && Permitted(cfg, v, act)
  {
    match act
    case SendReply(a) => HasRoom(cfg, mem, false, a.cat, Narrow(a.nbytes), a.destAddr)
    case CommitRequest(c) => HasRoom(cfg, mem, true, c.cat, c.nbytes, c.destAddr)
    case CommitReply(c) => HasRoom(cfg, mem, false, c.cat, c.nbytes, c.destAddr)
    case EndPoll => Here(v).InPoll? && Here(v).call.Sending? ==>
        HasRoom(cfg, mem, true, Here(v).call.send.cat, Narrow(Here(v).call.send.nbytes), Here(v).call.send.destAddr)
    case _ => true
  }

  /** The step adds exactly these messages, and leaves memory like this. */
  predicate Does(s: State, r: Result, events: seq<Event>, mem: seq<Byte>) { r.Next? && r.value.log == s.log + events && r.value.mem == mem }

  // ----- the pieces --------------------------------------------------------------------------

  lemma {:induction false} WriteBack(mem: seq<Byte>, a: nat, n: nat)
    ensures a + n <= |mem| ==> Write(mem, a, Read(mem, a, n)) == mem
  {
  }

  /** A fixed-payload message within the process. */
  lemma {:induction false} LocalSend(cfg: Config, s: State, isReq: bool, a: SendArgs)
    requires ConfigOk(cfg) && Buffers(cfg, s) && Side(cfg, Of(s, isReq), None, None, false) && !Of(s, isReq).running
    requires SendOk(cfg, isReq, Local, a) && !BadArg(cfg, isReq, Local, a)
    requires HasRoom(cfg, s.mem, isReq, a.cat, Narrow(a.nbytes), a.destAddr)
    ensures Does(s, SendLocal(cfg, s, isReq, a), [FixedEvent(cfg, s.mem, isReq, Local, a)],
                 Placed(cfg, s.mem, isReq, a.cat, a.destAddr, Read(s.mem, a.src, Narrow(a.nbytes))))
  {
    Buffered(cfg);
    FixedInner(cfg, s, isReq, a);
    var bytes := Read(s.mem, a.src, Narrow(a.nbytes));
    match a.cat
    case Short =>
    case Medium => ReadBack(s.mem, BufferAt(cfg, isReq), bytes);
    case Long => ReadBack(s.mem, a.destAddr, bytes);
  }

  /** A committed message within the process. */
  lemma {:induction false} LocalCommit(cfg: Config, s: State, isReq: bool, p: Prep, c: CommitArgs)
    requires ConfigOk(cfg) && Buffers(cfg, s) && SdIs(cfg, Of(s, isReq), p, true) && p.dest.Local?
    requires CommitMatches(cfg, isReq, p, c) && !Of(s, isReq).running
    requires HasRoom(cfg, s.mem, isReq, c.cat, c.nbytes, c.destAddr)
    ensures Does(s, DoCommit(cfg, s, isReq, c), [CommitEvent(cfg, s.mem, isReq, p, c)],
                 Placed(cfg, s.mem, isReq, p.cat, c.destAddr, Read(s.mem, PayloadAt(cfg, p, isReq), c.nbytes)))
  {
    Buffered(cfg);
    var bytes := Read(s.mem, PayloadAt(cfg, p, isReq), c.nbytes);
    if c.cat == Medium {
      WriteBack(s.mem, BufferAt(cfg, isReq), c.nbytes);
      ReadBack(s.mem, BufferAt(cfg, isReq), bytes);
    } else {
      ReadBack(s.mem, c.destAddr, bytes);
    }
  }

  /** A fixed-payload message for the network. */
  lemma {:induction false} RemoteSend(cfg: Config, s: State, isReq: bool, to: Dest, a: SendArgs)
    requires to.Remote?
    ensures Does(s, Next(SendRemote(s, isReq, to, a)), [FixedEvent(cfg, s.mem, isReq, to, a)], s.mem)
  {
  }

  /** A committed message that the conduit accepts or refuses. */
  lemma {:induction false} RemoteCommit(cfg: Config, s: State, isReq: bool, p: Prep, c: CommitArgs)
    requires ConfigOk(cfg) && Buffers(cfg, s) && SdIs(cfg, Of(s, isReq), p, false) && p.dest.Remote?
    requires CommitMatches(cfg, isReq, p, c) && CommitInject(s, isReq, c).Next?
    ensures Does(s, CommitInject(s, isReq, c), if c.accepted then [CommitEvent(cfg, s.mem, isReq, p, c)] else [], s.mem)
  {
  }

  // ----- every step ---------------------------------------------------------------------------

  predicate Quiet(act: Action) {
    act.Store? || act.Poll? || act.SendRequest? || act.PrepareRequest? || act.PrepareReply? || act.CancelRequest? || act.CancelReply? || act.Return?
  }

  /** Steps that send nothing and, but for a store, leave memory alone. */
  lemma {:induction false} QuietStep(cfg: Config, s: State, act: Action)
    requires cfg.align > 0 && Quiet(act) && Step(cfg, s, act).Next?
    ensures Does(s, Step(cfg, s, act), [], if act.Store? then Write(s.mem, act.at, act.bytes) else s.mem)
  {
    assert s.log + [] == s.log;
    if act.PrepareReply? { QuietPrepareReply(cfg, s, act.prep); }
    else if act.CancelRequest? { QuietCancel(s, true, act.cat); }
    else if act.CancelReply? { QuietCancel(s, false, act.cat); }
    else if act.Return? { QuietReturn(s); }
  }

  lemma {:induction false} QuietPrepareReply(cfg: Config, s: State, a: PrepArgs)
    requires cfg.align > 0 && InHandler(s) && DoPrepareReply(cfg, s, a).Next?
    ensures Does(s, DoPrepareReply(cfg, s, a), [], s.mem)
  {
    assert s.log + [] == s.log;
    PrepareReplyLog(cfg, s, a);
    PrepareReplyMem(cfg, s, a);
  }

  lemma {:induction false} QuietCancel(s: State, isReq: bool, cat: Category)
    requires DoCancel(s, isReq, cat).Next?
    ensures Does(s, DoCancel(s, isReq, cat), [], s.mem)
  {
    assert s.log + [] == s.log;
  }

  lemma {:induction false} QuietReturn(s: State)
    requires InHandler(s) && DoReturn(s).Next?
    ensures Does(s, DoReturn(s), [], s.mem)
  {
    assert s.log + [] == s.log;
  }

  lemma {:induction false} SendReplyMessage(cfg: Config, v: View, s: State, a: SendArgs)
    requires ConfigOk(cfg) && Related(cfg, v, s) && Permitted(cfg, v, SendReply(a)) && Room(cfg, v, s.mem, SendReply(a))
    ensures Does(s, Step(cfg, s, SendReply(a)), Expected(cfg, v, s.mem, SendReply(a)), MemoryAfter(cfg, v, s.mem, SendReply(a)))
  {
    ReplyGoes(cfg, v, s, a);
    assert s.log + [] == s.log;
    if !BadArg(cfg, false, Origin(Here(v).source), a) {
      if Here(v).source.FromNetwork? { RemoteSend(cfg, s, false, Origin(Here(v).source), a); }
      else { ReplySideIdle(cfg, v, s); LocalSend(cfg, s, false, a); }
    }
  }

  lemma {:induction false} ReplySideIdle(cfg: Config, v: View, s: State)
    requires cfg.align > 0 && Consistent(cfg, v, s) && InRequestHandler(v) && Here(v).rep.None?
    ensures Buffers(cfg, s) && Side(cfg, s.rep, None, None, false) && !s.rep.running
  {
    RequestTop(cfg, v, s);
  }

  lemma {:induction false} CommitReplyMessage(cfg: Config, v: View, s: State, c: CommitArgs)
    requires ConfigOk(cfg) && Related(cfg, v, s) && Permitted(cfg, v, CommitReply(c)) && Room(cfg, v, s.mem, CommitReply(c))
    ensures Does(s, Step(cfg, s, CommitReply(c)), Expected(cfg, v, s.mem, CommitReply(c)), MemoryAfter(cfg, v, s.mem, CommitReply(c)))
  {
    var p := Here(v).rep.value;
    RequestTop(cfg, v, s);
    StepConsistent(cfg, v, s, CommitReply(c));
    if p.dest.Local? { LocalCommit(cfg, s, false, p, c); }
    else { RemoteCommit(cfg, WithSd(s, false, s.rep.sd.(active := false)), false, p, c); }
  }

  lemma {:induction false} CommitRequestMessage(cfg: Config, v: View, s: State, c: CommitArgs)
    requires ConfigOk(cfg) && Related(cfg, v, s) && Permitted(cfg, v, CommitRequest(c)) && Room(cfg, v, s.mem, CommitRequest(c))
    ensures Does(s, Step(cfg, s, CommitRequest(c)), Expected(cfg, v, s.mem, CommitRequest(c)), MemoryAfter(cfg, v, s.mem, CommitRequest(c)))
  {
    assert s.log + [] == s.log;
    if v.req.value.dest.Local? { LocalCommit(cfg, s, true, v.req.value, c); }
  }

  lemma {:induction false} EndCommitMessage(cfg: Config, v: View, s: State)
    requires ConfigOk(cfg) && Related(cfg, v, s) && Permitted(cfg, v, EndPoll) && Here(v).InCommit?
    ensures Does(s, Step(cfg, s, EndPoll), Expected(cfg, v, s.mem, EndPoll), s.mem)
  {
    EndingCommit(cfg, v, s);
    RemoteCommit(cfg, Pop(s), true, Here(v).prep, Here(v).commit);
  }

  lemma {:induction false} PollIsSending(cfg: Config, v: View, s: State, a: SendArgs)
    requires cfg.align > 0 && Consistent(cfg, v, s) && !ClientTurn(v) && Here(v) == InPoll(Sending(a))
    ensures s.stack != [] && Top(s) == Polling(Sending(a))
    ensures Buffers(cfg, Pop(s)) && Side(cfg, Pop(s).req, None, None, false) && !Pop(s).req.running && !BadArg(cfg, true, a.dest, a)
  {
  }

  lemma {:induction false} EndSendMessage(cfg: Config, v: View, s: State)
    requires ConfigOk(cfg) && Related(cfg, v, s) && Permitted(cfg, v, EndPoll) && Here(v).InPoll? && Here(v).call.Sending?
    requires Room(cfg, v, s.mem, EndPoll)
    ensures Does(s, Step(cfg, s, EndPoll), Expected(cfg, v, s.mem, EndPoll), MemoryAfter(cfg, v, s.mem, EndPoll))
  {
    var a := Here(v).call.send;
    PollIsSending(cfg, v, s, a);
    if a.dest.Local? { LocalSend(cfg, Pop(s), true, a); } else { RemoteSend(cfg, Pop(s), true, a.dest, a); }
  }

  lemma {:induction false} EndOtherMessage(cfg: Config, v: View, s: State)
    requires ConfigOk(cfg) && Related(cfg, v, s) && Permitted(cfg, v, EndPoll) && Here(v).InPoll? && !Here(v).call.Sending?
    ensures Does(s, Step(cfg, s, EndPoll), [], s.mem)
  {
    assert s.log + [] == s.log;
    EndingPoll(cfg, v, s);
    if Here(v).call.Preparing? { QuietPrepareRequest(cfg, Pop(s), Here(v).call.prep); }
  }

  lemma {:induction false} EndPollMessage(cfg: Config, v: View, s: State)
    requires ConfigOk(cfg) && Related(cfg, v, s) && Permitted(cfg, v, EndPoll) && Room(cfg, v, s.mem, EndPoll)
    ensures Does(s, Step(cfg, s, EndPoll), Expected(cfg, v, s.mem, EndPoll), MemoryAfter(cfg, v, s.mem, EndPoll))
  {
    if Here(v).InCommit? { EndCommitMessage(cfg, v, s); }
    else if Here(v).call.Sending? { EndSendMessage(cfg, v, s); }
    else { EndOtherMessage(cfg, v, s); }
  }

  lemma {:induction false} QuietPrepareRequest(cfg: Config, s: State, a: PrepArgs)
    requires cfg.align > 0 && DoPrepareRequest(cfg, s, a).Next?
    ensures DoPrepareRequest(cfg, s, a).value.log == s.log && DoPrepareRequest(cfg, s, a).value.mem == s.mem
  {
  }

  /** From every state of a disciplined run, every step sends or delivers exactly the
      message that its arguments and the client's view call for, to the right handler
      with the right arguments and bytes, and changes memory exactly where that
      message goes. */
  lemma {:induction false} MessagesAreExact(cfg: Config, v: View, s: State, act: Action)
    requires ConfigOk(cfg) && Related(cfg, v, s) && Permitted(cfg, v, act) && Room(cfg, v, s.mem, act)
    ensures Does(s, Step(cfg, s, act), Expected(cfg, v, s.mem, act), MemoryAfter(cfg, v, s.mem, act))
  {
    if act.SendReply? { SendReplyMessage(cfg, v, s, act.send); }
    else if act.CommitRequest? { CommitRequestMessage(cfg, v, s, act.commit); }
    else if act.CommitReply? { CommitReplyMessage(cfg, v, s, act.commit); }
    else { OtherMessages(cfg, v, s, act); }
  }

  lemma {:induction false} OtherMessages(cfg: Config, v: View, s: State, act: Action)
    requires ConfigOk(cfg) && Related(cfg, v, s) && Permitted(cfg, v, act) && Room(cfg, v, s.mem, act)
    requires !act.SendReply? && !act.CommitRequest? && !act.CommitReply?
    ensures Does(s, Step(cfg, s, act), Expected(cfg, v, s.mem, act), MemoryAfter(cfg, v, s.mem, act))
  {
    if act.EndPoll? { EndPollMessage(cfg, v, s); }
    else {
      StepConsistent(cfg, v, s, act);
      if !act.Arrive? { QuietStep(cfg, s, act); }
    }
  }

  /** A whole fixed-payload request: nothing at the call, its message once the poll is
      over. */
  lemma {:induction false} RequestMessage(cfg: Config, v: View, s: State, a: SendArgs)
    requires ConfigOk(cfg) && Related(cfg, v, s) && Permitted(cfg, v, SendRequest(a)) && !BadArg(cfg, true, a.dest, a)
    requires a.dest.Local? ==> HasRoom(cfg, s.mem, true, a.cat, Narrow(a.nbytes), a.destAddr)
    ensures Does(s, Run(cfg, s, [SendRequest(a), EndPoll]), [FixedEvent(cfg, s.mem, true, a.dest, a)],
                 if a.dest.Local? then Placed(cfg, s.mem, true, a.cat, a.destAddr, Read(s.mem, a.src, Narrow(a.nbytes))) else s.mem)
  {
    var v1 := Enter(v, InPoll(Sending(a)));
    StepGood(cfg, v, s, SendRequest(a));
    QuietStep(cfg, s, SendRequest(a));
    assert s.log + [] == s.log;
    var s1 := Step(cfg, s, SendRequest(a)).value;
    if a.dest.Local? { assert Room(cfg, v1, s1.mem, EndPoll); EndPollMessage(cfg, v1, s1); }
    else { StepGood(cfg, v1, s1, EndPoll); RemoteSend(cfg, Pop(s1), true, a.dest, a); }
    assert [SendRequest(a), EndPoll] == [SendRequest(a)] + [EndPoll];
    RunCons(cfg, s, SendRequest(a), [EndPoll]);
    RunOne(cfg, s1, EndPoll);
  }

  // ----- arguments that are turned down --------------------------------------------------------

  /** A fixed-payload call is turned down exactly when it has more payload than the
      limit, or is a Long with a byte whose destination is outside the segment. */
  lemma {:induction false} TurnedDownIff(cfg: Config, isReq: bool, dest: Dest, a: SendArgs)
    ensures BadArg(cfg, isReq, dest, a) <==>
              || ((a.cat == Medium || a.cat == Long) && a.nbytes > cfg.limit(isReq, a.cat, dest, LcNow, NoFlags, |a.args|))
              || (a.cat == Long && exists i :: a.destAddr <= i < a.destAddr + a.nbytes && !InRange(cfg, i))
  {
    if a.cat == Long && a.nbytes != 0 {
      var first, last := a.destAddr, a.destAddr + a.nbytes - 1;
      if !InSegment(cfg, a.destAddr, a.nbytes) { assert !InRange(cfg, first) || !InRange(cfg, last); }
    }
  }

  predicate InRange(cfg: Config, i: int) { cfg.segLow <= i < cfg.segHigh }

  /** The local-completion options of Prepare: none with a library buffer; with a
      client buffer an event or "now", and for a request also "group". */
  lemma {:induction false} CompletionOptions(cbuf: Ptr, e: Ptr)
    ensures LcOk(true, cbuf, LcNull) && LcOk(false, cbuf, LcNull) <==> cbuf == 0
    ensures LcOk(true, cbuf, LcNull) || LcOk(false, cbuf, LcNull) <==> cbuf == 0
    ensures LcOk(true, cbuf, LcEvent(e)) && LcOk(false, cbuf, LcEvent(e)) && LcOk(true, cbuf, LcNow) && LcOk(false, cbuf, LcNow) <==> cbuf != 0
    ensures LcOk(true, cbuf, LcEvent(e)) || LcOk(false, cbuf, LcEvent(e)) || LcOk(true, cbuf, LcNow) || LcOk(false, cbuf, LcNow) <==> cbuf != 0
    ensures LcOk(true, cbuf, LcGroup) <==> cbuf != 0
    ensures !LcOk(false, cbuf, LcGroup) && !LcOk(true, cbuf, LcDefer) && !LcOk(false, cbuf, LcDefer)
  {
  }

  /** A Prepare is in order exactly when its completion option goes with its buffer, it
      has no LEAST flag of the other buffer choice, its arguments are not too many, and
      the least it can do with is within what it wants and within the limit. */
  lemma {:induction false} PrepareInOrderIff(cfg: Config, isReq: bool, dest: Dest, a: PrepArgs)
    ensures PrepOk(cfg, isReq, dest, a) <==>
              && LcOk(isReq, a.cbuf, a.lc)
              && (a.cbuf == 0 ==> !a.flags.leastClient && a.least <= cfg.limit(isReq, a.cat, dest, a.lc, Flags(a.flags.immediate, false, true), a.nargs))
              && (a.cbuf != 0 ==> !a.flags.leastAlloc && a.least <= cfg.limit(isReq, a.cat, dest, a.lc, Flags(a.flags.immediate, true, false), a.nargs))
              && a.nargs <= cfg.maxArgs && a.least <= a.most
  {
    var f := CheckFlags(a.cbuf, a.flags);
    assert !(f.leastClient && f.leastAlloc) ==> f == if a.cbuf == 0 then Flags(a.flags.immediate, false, true) else Flags(a.flags.immediate, true, false);
  }

  /** A Commit goes through only with the category and the number of arguments of its
      Prepare, no more bytes than it granted, the destination it named, if any (or no
      bytes and no destination), and no flag but IMMEDIATE. */
  predicate WithinGrant(cfg: Config, p: Prep, c: CommitArgs) {
    && c.nbytes <= p.size && c.cat == p.cat && |c.args| == p.nargs
    && (UsesBuf(p) ==> c.nbytes <= cfg.maxMedium)
    && (c.cat == Long && p.destAddr != 0 ==> c.destAddr == p.destAddr || (c.destAddr == 0 && c.nbytes == 0))
    && !c.otherFlags
  }

  lemma {:induction false} ReplyWithinGrant(cfg: Config, v: View, s: State, c: CommitArgs)
    requires ConfigOk(cfg) && Related(cfg, v, s)
    ensures Step(cfg, s, CommitReply(c)).Next? ==> RepHeld(v).Some? && WithinGrant(cfg, RepHeld(v).value, c)
  {
    if Step(cfg, s, CommitReply(c)).Next? {
      CommitNeedsActive(cfg, s, false, c);
      ActiveIsHeld(cfg, v, s, false);
      CommitNeedsGrant(cfg, s, false, RepHeld(v).value, c);
    }
  }

  lemma {:induction false} RequestWithinGrant(cfg: Config, v: View, s: State, c: CommitArgs)
    requires ConfigOk(cfg) && Related(cfg, v, s)
    ensures Step(cfg, s, CommitRequest(c)).Next? ==> v.req.Some? && WithinGrant(cfg, v.req.value, c)
  {
    if Step(cfg, s, CommitRequest(c)).Next? {
      CommitNeedsActive(cfg, s, true, c);
      ActiveIsHeld(cfg, v, s, true);
      CommitNeedsGrant(cfg, s, true, v.req.value, c);
    }
  }

  lemma {:induction false} CommitNeedsActive(cfg: Config, s: State, isReq: bool, c: CommitArgs)
    requires cfg.align > 0 && DoCommit(cfg, s, isReq, c).Next?
    ensures Of(s, isReq).sd.active
  {
  }

  lemma {:induction false} CommitNeedsGrant(cfg: Config, s: State, isReq: bool, p: Prep, c: CommitArgs)
    requires cfg.align > 0 && DoCommit(cfg, s, isReq, c).Next? && SdIs(cfg, Of(s, isReq), p, true)
    ensures WithinGrant(cfg, p, c)
  {
    assert CommitOk(Of(s, isReq).sd.(active := false), c);
  }

  lemma {:induction false} ActiveIsHeld(cfg: Config, v: View, s: State, isReq: bool)
    requires cfg.align > 0 && Consistent(cfg, v, s) && Of(s, isReq).sd.active
    ensures isReq ==> v.req.Some? && SdIs(cfg, s.req, v.req.value, true)
    ensures !isReq ==> RepHeld(v).Some? && SdIs(cfg, s.rep, RepHeld(v).value, true)
  {
  }

  /** The plainest use: a Medium to oneself in a library buffer, with whatever the
      client then has there.  Its handler runs once, with those bytes and arguments,
      and everything is given back. */
  lemma {:induction false} PlainPrepareAndCommit(cfg: Config, mem: seq<Byte>, most: nat, handler: nat, args: seq<int>, bytes: seq<Byte>)
    requires ConfigOk(cfg) && |args| <= cfg.maxArgs && |bytes| <= most && |bytes| <= cfg.maxMedium
    requires cfg.mallocAt + |bytes| <= |mem| && CallOk(cfg.handlers(handler), |args|, Medium, true)
    ensures var a := PrepArgs(Medium, Local, 0, 0, most, 0, LcNull, NoFlags, |args|);
            var c := CommitArgs(Medium, handler, |bytes|, 0, false, false, args, true);
            var r := Run(cfg, InitState(mem), [PrepareRequest(a), EndPoll, Store(cfg.mallocAt, bytes), CommitRequest(c), Return]);
            && r.Next? && Related(cfg, Start, r.value)
            && r.value.log == [Ran(true, Local, cfg.handlers(handler), Medium, bytes, args)]
  {
    var a := PrepArgs(Medium, Local, 0, 0, most, 0, LcNull, NoFlags, |args|);
    var c := CommitArgs(Medium, handler, |bytes|, 0, false, false, args, true);
    var p := Grant(cfg, true, Local, a);
    var s0 := InitState(mem);
    var s1, s2 := PlainPrepare(cfg, mem, a);
    var s3, s4 := PlainCommit(cfg, s2, p, c, bytes);
    RunFive(cfg, s0, s1, s2, s3, s4, PrepareRequest(a), EndPoll, Store(cfg.mallocAt, bytes), CommitRequest(c), Return);
  }

  lemma {:induction false} PlainPrepare(cfg: Config, mem: seq<Byte>, a: PrepArgs) returns (s1: State, s2: State)
    requires ConfigOk(cfg) && a.nargs <= cfg.maxArgs && a == PrepArgs(Medium, Local, 0, 0, a.most, 0, LcNull, NoFlags, a.nargs)
    ensures Step(cfg, InitState(mem), PrepareRequest(a)) == Next(s1) && Step(cfg, s1, EndPoll) == Next(s2)
    ensures Related(cfg, View(Some(Grant(cfg, true, Local, a)), []), s2) && s2.log == [] && s2.mem == mem
  {
    var v1 := View(None, [InPoll(Preparing(a))]);
    PrepareInOrderIff(cfg, true, Local, a);
    CompletionOptions(0, 0);
    StartIsRelated(cfg, mem);
    assert Start.ctx + [InPoll(Preparing(a))] == v1.ctx && v1.ctx[..0] == [];
    s1 := Takes(cfg, Start, InitState(mem), PrepareRequest(a), v1);
    s2 := Takes(cfg, v1, s1, EndPoll, View(Some(Grant(cfg, true, Local, a)), []));
  }

  lemma {:induction false} PlainCommit(cfg: Config, s: State, p: Prep, c: CommitArgs, bytes: seq<Byte>) returns (s3: State, s4: State)
    requires ConfigOk(cfg) && Related(cfg, View(Some(p), []), s) && p.dest.Local? && p.cat == Medium && p.cbuf == 0 && p.destAddr == 0
    requires CommitMatches(cfg, true, p, c) && c.nbytes == |bytes| && cfg.mallocAt + |bytes| <= |s.mem|
    ensures Step(cfg, s, Store(cfg.mallocAt, bytes)) == Next(s3) && Step(cfg, s3, CommitRequest(c)) == Next(s4)
    ensures var r := Step(cfg, s4, Return);
            r.Next? && Related(cfg, Start, r.value)
            && r.value.log == s.log + [Ran(true, Local, cfg.handlers(c.handler), Medium, bytes, c.args)]
  {
    var v2, v4 := View(Some(p), []), View(None, [InRequest(FromPrepared(p), 0, None)]);
    s3 := Takes(cfg, v2, s, Store(cfg.mallocAt, bytes), v2);
    ReadBack(s.mem, cfg.mallocAt, bytes);
    assert [] + v4.ctx == v4.ctx && v4.ctx[..0] == [];
    s4 := Takes(cfg, v2, s3, CommitRequest(c), v4);
    var s5 := Takes(cfg, v4, s4, Return, Start);
  }

  lemma {:induction false} StartIsRelated(cfg: Config, mem: seq<Byte>)
    requires cfg.align > 0
    ensures Related(cfg, Start, InitState(mem))
  {
  }

  /** One step of an example, with what it does. */
  lemma {:induction false} Takes(cfg: Config, v: View, s: State, act: Action, w: View) returns (t: State)
    requires ConfigOk(cfg) && Related(cfg, v, s) && Permitted(cfg, v, act) && Room(cfg, v, s.mem, act) && Advance(cfg, v, act) == w
    ensures Step(cfg, s, act) == Next(t) && Related(cfg, w, t)
    ensures t.log == s.log + Expected(cfg, v, s.mem, act) && t.mem == MemoryAfter(cfg, v, s.mem, act)
  {
    StepGood(cfg, v, s, act);
    MessagesAreExact(cfg, v, s, act);
    t := Step(cfg, s, act).value;
  }

  lemma {:induction false} RunFive(cfg: Config, s0: State, s1: State, s2: State, s3: State, s4: State,
                                   a: Action, b: Action, c: Action, d: Action, e: Action)
    requires cfg.align > 0 && Step(cfg, s0, a) == Next(s1) && Step(cfg, s1, b) == Next(s2)
    requires Step(cfg, s2, c) == Next(s3) && Step(cfg, s3, d) == Next(s4)
    ensures Run(cfg, s0, [a, b, c, d, e]) == Step(cfg, s4, e)
  {
    RunCons(cfg, s0, a, [b, c, d, e]);
    RunCons(cfg, s1, b, [c, d, e]);
    RunCons(cfg, s2, c, [d, e]);
    RunCons(cfg, s3, d, [e]);
    assert [a, b, c, d, e] == [a] + [b, c, d, e] && [b, c, d, e] == [b] + [c, d, e] && [c, d, e] == [c] + [d, e] && [d, e] == [d] + [e];
    RunOne(cfg, s4, e);
  }

  // ----- how much Prepare grants ---------------------------------------------------------------

  /** What the client asked for, or else the most there is. */
  predicate AsMuchAsThereIs(size: nat, most: nat, limit: nat) {
    size <= most && size <= limit && (size == most || size == limit)
  }

  /** After a Prepare of a request the descriptor offers as much as was asked for,
      unless less is available: the library's buffer for a Medium within the process
      and for any payload it holds, the loopback Long limit for a client's Long, and
      the conduit's limit for the network. */
  lemma {:induction false} PrepareOffers(cfg: Config, v: View, s: State)
    requires ConfigOk(cfg) && Related(cfg, v, s) && Permitted(cfg, v, EndPoll) && Here(v).InPoll? && Here(v).call.Preparing?
    ensures var a := Here(v).call.prep;
            var r := Step(cfg, s, EndPoll);
            var f := Flags(a.flags.immediate, false, a.cbuf == 0);
            var limit := if a.dest.Remote? then cfg.limit(true, a.cat, a.dest, a.lc, f, a.nargs)
                         else if a.cat == Long && a.cbuf != 0 then cfg.maxLong
                         else cfg.maxMedium;
            r.Next? && AsMuchAsThereIs(r.value.req.sd.size, a.most, limit) && r.value.req.sd.addr == (if a.cbuf != 0 then a.cbuf else cfg.mallocAt)
  {
    StepGood(cfg, v, s, EndPoll);
    var a := Here(v).call.prep;
    assert Advance(cfg, v, EndPoll).req == Some(Grant(cfg, true, a.dest, a));
  }

  lemma {:induction false} PrepareReplyOffers(cfg: Config, v: View, s: State, a: PrepArgs)
    requires ConfigOk(cfg) && Related(cfg, v, s) && Permitted(cfg, v, PrepareReply(a))
    ensures var to := Origin(Here(v).source);
            var r := Step(cfg, s, PrepareReply(a));
            var f := Flags(a.flags.immediate, false, a.cbuf == 0);
            var limit := if to.Remote? then cfg.limit(false, a.cat, to, a.lc, f, a.nargs)
                         else if a.cat == Long && a.cbuf != 0 then cfg.maxLong
                         else cfg.maxMedium;
            r.Next? && AsMuchAsThereIs(r.value.rep.sd.size, a.most, limit) && r.value.rep.sd.addr == (if a.cbuf != 0 then a.cbuf else ReplyAt(cfg))
  {
    StepGood(cfg, v, s, PrepareReply(a));
    var w := Advance(cfg, v, PrepareReply(a));
    assert RepHeld(w) == Some(Grant(cfg, false, Origin(Here(v).source), a));
  }
}
