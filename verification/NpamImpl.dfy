/** The per-thread data and the functions that update it in place, each proved
    against its description on values.  A method returns false where the debug
    build stops the job; the state is then of no interest. */
module NpamImpl {
  import opened Dispatch
  import opened Npam
  import opened NpamClient
  import opened NpamSafety

  // The stored descriptor plays no part in taking a buffer.

  function Restore(r: SdResult, isReq: bool, x: SrcDesc): SdResult { if r.Both? then Both(WithSd(r.state, isReq, x), r.sd) else r }

  lemma {:induction false} AllocCommutes(cfg: Config, s: State, isReq: bool, x: SrcDesc)
    requires cfg.align > 0
    ensures var r, q := AllocBuf(cfg, s, isReq), AllocBuf(cfg, WithSd(s, isReq, x), isReq);
            if r.Next? then q == Next(WithSd(r.value, isReq, x)) && Of(q.value, isReq).buf == Of(r.value, isReq).buf else q == r
  {
  }

  lemma {:induction false} AllocNpamCommutes(cfg: Config, s: State, isReq: bool, x: SrcDesc, sd: SrcDesc)
    requires cfg.align > 0
    ensures AllocNpam(cfg, WithSd(s, isReq, x), sd, isReq) == Restore(AllocNpam(cfg, s, sd, isReq), isReq, x)
  {
    AllocCommutes(cfg, s, isReq, x);
  }

  lemma {:induction false} PayloadCommutes(cfg: Config, s: State, isReq: bool, x: SrcDesc, sd: SrcDesc, isFixed: bool, cat: Category, cbuf: Ptr, most: nat)
    requires cfg.align > 0
    ensures PreparePayload(cfg, WithSd(s, isReq, x), sd, isFixed, isReq, cat, cbuf, most)
            == Restore(PreparePayload(cfg, s, sd, isFixed, isReq, cat, cbuf, most), isReq, x)
  {
    AllocNpamCommutes(cfg, s, isReq, x, sd.(size := Min(cfg.maxMedium, most)));
  }

  lemma {:induction false} InnerCommutes(cfg: Config, s: State, isReq: bool, x: SrcDesc, sd: SrcDesc, isFixed: bool, cat: Category, cbuf: Ptr, most: nat, nargs: nat)
    requires cfg.align > 0
    ensures PrepareInner(cfg, WithSd(s, isReq, x), sd, isFixed, isReq, cat, cbuf, most, nargs)
            == Restore(PrepareInner(cfg, s, sd, isFixed, isReq, cat, cbuf, most, nargs), isReq, x)
  {
    AllocCommutes(cfg, s, isReq, x);
    var r := TakeBuffer(cfg, s, sd, isReq, cat, nargs);
    if r.Both? { PayloadCommutes(cfg, r.state, isReq, x, r.sd, isFixed, cat, cbuf, most); }
  }

  lemma {:induction false} RemoteCommutes(cfg: Config, s: State, isReq: bool, x: SrcDesc, sd: SrcDesc, dest: Dest, a: PrepArgs)
    requires cfg.align > 0
    ensures PrepareRemote(cfg, WithSd(s, isReq, x), sd, isReq, dest, a) == Restore(PrepareRemote(cfg, s, sd, isReq, dest, a), isReq, x)
  {
    var size := Min(a.most, cfg.limit(isReq, a.cat, dest, a.lc, LimitFlags(a.cbuf, a.flags), a.nargs));
    AllocNpamCommutes(cfg, s, isReq, x, sd.(isNbrhd := false, dest := dest, lcOpt := a.lc, flags := a.flags, nargs := a.nargs, size := size));
  }

  /** A descriptor in place: the thread's own two, or a local of a call. */
  class SourceDesc {
    var v: SrcDesc

    constructor ()
      ensures v == BlankSd
    {
      v := BlankSd;
    }
  }

  class Thread {
    const cfg: Config
    const requestSd: SourceDesc
    const replySd: SourceDesc
    var requestBuf: Ptr
    var replyBuf: Ptr
    var requestBufLive: bool
    var replyBufLive: bool
    var requestHandlerActive: nat
    var replyHandlerActive: nat
    var mem: seq<Byte>
    var stack: seq<Frame>
    var log: seq<Event>

    ghost predicate Valid()
      reads this
    {
      cfg.align > 0 && requestSd != replySd && requestHandlerActive <= 1 && replyHandlerActive <= 1
    }

    ghost function Abs(): State
      reads this, requestSd, replySd
    {
      State(mem, Half(requestSd.v, requestBuf, requestBufLive, requestHandlerActive == 1),
            Half(replySd.v, replyBuf, replyBufLive, replyHandlerActive == 1), stack, log)
    }

    constructor (cfg: Config, mem: seq<Byte>)
      requires cfg.align > 0
      ensures Valid() && this.cfg == cfg && Abs() == InitState(mem) && fresh(requestSd) && fresh(replySd)
    {
      this.cfg, this.mem := cfg, mem;
      requestSd := new SourceDesc();
      replySd := new SourceDesc();
      requestBuf, replyBuf, requestBufLive, replyBufLive := 0, 0, false, false;
      requestHandlerActive, replyHandlerActive, stack, log := 0, 0, [], [];
    }

    function Own(isReq: bool): SourceDesc { if isReq then requestSd else replySd }

    // ----- checks ----------------------------------------------------------------

    method CheckInjection(forReply: bool) returns (ok: bool)
      requires Valid()
      ensures ok == CheckInject(Abs(), forReply)
    {
      if replyHandlerActive != 0 { return false; }
      if requestHandlerActive != 0 && !forReply { return false; }
      if replySd.v.active { return false; }
      if !forReply && requestSd.v.active { return false; }
      return true;
    }

    method HandlerEnter(isReq: bool) returns (ok: bool)
      requires Valid()
      modifies this
      ensures var r := EnterHandler(old(Abs()), isReq); ok == r.Next? && (ok ==> Valid() && Abs() == r.value)
    {
      if (if isReq then requestHandlerActive else replyHandlerActive) != 0 { return false; }
      if isReq { requestHandlerActive := 1; } else { replyHandlerActive := 1; }
      return true;
    }

    method HandlerLeave(isReq: bool) returns (ok: bool)
      requires Valid()
      modifies this
      ensures var r := LeaveHandler(old(Abs()), isReq); ok == r.Next? && (ok ==> Valid() && Abs() == r.value)
    {
      if (if isReq then requestHandlerActive else replyHandlerActive) != 1 { return false; }
      if isReq { requestHandlerActive := 0; } else { replyHandlerActive := 0; }
      return true;
    }

    // ----- buffers ----------------------------------------------------------------

    method AllocPerthreadMediumBuffer(isReq: bool) returns (ok: bool, buf: Ptr)
      requires Valid()
      modifies this
      ensures var r := AllocBuf(cfg, old(Abs()), isReq);
              ok == r.Next? && (ok ==> Valid() && Abs() == r.value && buf == Of(r.value, isReq).buf)
    {
      if requestBuf == 0 {
        var padded := AlignUp(cfg.maxMedium, cfg.align);
        requestBuf := cfg.mallocAt;
        replyBuf := cfg.mallocAt + padded;
      }
      if isReq {
        if requestBufLive { return false, 0; }
        requestBufLive := true;
        return true, requestBuf;
      } else {
        if replyBufLive { return false, 0; }
        replyBufLive := true;
        return true, replyBuf;
      }
    }

    method FreePerthreadMediumBuffer(buf: Ptr, isReq: bool) returns (ok: bool)
      requires Valid()
      modifies this
      ensures var r := FreeBuf(old(Abs()), buf, isReq); ok == r.Next? && (ok ==> Valid() && Abs() == r.value)
    {
      if isReq {
        if buf != requestBuf || !requestBufLive { return false; }
        requestBufLive := false;
      } else {
        if buf != replyBuf || !replyBufLive { return false; }
        replyBufLive := false;
      }
      return true;
    }

    method FreeNpamBuffer(isReq: bool) returns (ok: bool)
      requires Valid()
      modifies this, requestSd, replySd
      ensures var r := FreeNpam(old(Abs()), isReq); ok == r.Next? && (ok ==> Valid() && Abs() == r.value)
    {
      var sd := Own(isReq);
      if sd.v.toFree == 0 { return false; }
      ok := FreePerthreadMediumBuffer(sd.v.toFree, isReq);
      if ok { sd.v := sd.v.(toFree := 0); }
    }

    // ----- descriptors --------------------------------------------------------------

    method InitSrcdesc(isReq: bool) returns (ok: bool)
      requires Valid()
      modifies requestSd, replySd
      ensures var r := InitSd(old(Abs()), isReq); ok == r.Next? && (ok ==> Valid() && Abs() == r.value)
    {
      var sd := Own(isReq);
      if sd.v.active { return false; }
      ok := CheckInjection(!isReq);
      if !ok { return; }
      if isReq && sd.v.toFree != 0 { return false; }
      sd.v := sd.v.(active := true, gexBuf := 0);
    }

    method ResetSrcdesc(isReq: bool) returns (ok: bool)
      requires Valid()
      modifies requestSd, replySd
      ensures var r := ResetSd(old(Abs()), isReq); ok == r.Next? && (ok ==> Valid() && Abs() == r.value)
    {
      var sd := Own(isReq);
      if !sd.v.active { return false; }
      sd.v := sd.v.(active := false);
      return true;
    }

    // ----- Prepare --------------------------------------------------------------------

    /** sd is this thread's own descriptor, or a local of the fixed-payload path. */
    ghost predicate Mine(sd: SourceDesc, isReq: bool) { sd == Own(isReq) || (sd != requestSd && sd != replySd) }

    /** The thread and the descriptor are what r says. */
    ghost predicate Matches(sd: SourceDesc, isReq: bool, r: SdResult)
      reads this, requestSd, replySd, sd
    {
      && r.Both? && Valid() && sd.v == r.sd
      && Abs() == if sd == Own(isReq) then WithSd(r.state, isReq, r.sd) else r.state
    }

    method AllocNpamBuffer(sd: SourceDesc, isReq: bool) returns (ok: bool, buf: Ptr)
      requires Valid() && Mine(sd, isReq)
      modifies this, sd
      ensures var r := AllocNpam(cfg, old(Abs()), old(sd.v), isReq);
              ok == r.Both? && (ok ==> Matches(sd, isReq, r) && buf == r.sd.gexBuf)
    {
      if sd.v.size > cfg.maxMedium { return false, 0; }
      ok, buf := AllocPerthreadMediumBuffer(isReq);
      if ok {
        sd.v := sd.v.(addr := buf, gexBuf := buf);
      }
    }

    method LoopbackPrepareInner(sd: SourceDesc, isFixed: bool, isReq: bool, category: Category, clientBuf: Ptr, most: nat, nargs: nat)
      returns (ok: bool)
      requires Valid() && Mine(sd, isReq)
      modifies this, sd
      ensures var r := PrepareInner(cfg, old(Abs()), old(sd.v), isFixed, isReq, category, clientBuf, most, nargs);
              ok == r.Both? && (ok ==> Matches(sd, isReq, r))
    {
      ghost var s0 := Abs();
      ok := LoopbackTakeBuffer(sd, isReq, category, nargs);
      if !ok { return; }
      ghost var r := TakeBuffer(cfg, s0, old(sd.v), isReq, category, nargs);
      PayloadCommutes(cfg, r.state, isReq, r.sd, r.sd, isFixed, category, clientBuf, most);
      ok := LoopbackPreparePayload(sd, isFixed, isReq, category, clientBuf, most);
    }

    /** A Medium takes the thread's buffer, whoever provides the payload. */
    method LoopbackTakeBuffer(sd: SourceDesc, isReq: bool, category: Category, nargs: nat) returns (ok: bool)
      requires Valid() && Mine(sd, isReq)
      modifies this, sd
      ensures var r := TakeBuffer(cfg, old(Abs()), old(sd.v), isReq, category, nargs);
              ok == r.Both? && (ok ==> Matches(sd, isReq, r))
    {
      ghost var s0 := Abs();
      ok := true;
      sd.v := sd.v.(nargs := nargs);
      AllocCommutes(cfg, s0, isReq, sd.v);
      if category == Medium {
        var buf;
        ok, buf := AllocPerthreadMediumBuffer(isReq);
        if !ok { return; }
        sd.v := sd.v.(voidP := buf);
      }
    }

    /** The rest of prepare_inner: where the payload is, and how much of it. */
    method LoopbackPreparePayload(sd: SourceDesc, isFixed: bool, isReq: bool, category: Category, clientBuf: Ptr, most: nat)
      returns (ok: bool)
      requires Valid() && Mine(sd, isReq)
      modifies this, sd
      ensures var r := PreparePayload(cfg, old(Abs()), old(sd.v), isFixed, isReq, category, clientBuf, most);
              ok == r.Both? && (ok ==> Matches(sd, isReq, r))
    {
      ok := true;
      if sd.v.toFree != 0 { return false; }
      if isFixed {
        sd.v := sd.v.(addr := clientBuf);
      } else if clientBuf != 0 {
        var limit := if category == Medium then cfg.maxMedium else cfg.maxLong;
        sd.v := sd.v.(size := Min(limit, most), addr := clientBuf);
      } else if category == Medium {
        sd.v := sd.v.(size := Min(cfg.maxMedium, most), gexBuf := sd.v.voidP, addr := sd.v.voidP);
      } else {
        ok := LoopbackPrepareLong(sd, isReq, most);
      }
    }

    /** A Long for which the client gave no buffer. */
    method LoopbackPrepareLong(sd: SourceDesc, isReq: bool, most: nat) returns (ok: bool)
      requires Valid() && Mine(sd, isReq)
      modifies this, sd
      ensures var r := ToFree(AllocNpam(cfg, old(Abs()), old(sd.v).(size := Min(cfg.maxMedium, most)), isReq));
              ok == r.Both? && (ok ==> Matches(sd, isReq, r))
    {
      ghost var s0 := Abs();
      sd.v := sd.v.(size := Min(cfg.maxMedium, most));
      AllocNpamCommutes(cfg, s0, isReq, sd.v, sd.v);
      var buf;
      ok, buf := AllocNpamBuffer(sd, isReq);
      if ok { sd.v := sd.v.(toFree := buf); }
    }

    method PrepareCommon(isReq: bool, dest: Dest, a: PrepArgs) returns (ok: bool)
      requires Valid()
      modifies this, requestSd, replySd
      ensures var r := PrepareRemote(cfg, old(Abs()), old(Own(isReq).v), isReq, dest, a);
              ok == r.Both? && (ok ==> Matches(Own(isReq), isReq, r))
    {
      ghost var s0 := Abs();
      var sd := Own(isReq);
      var limitFlags := if a.cbuf != 0 then a.flags else a.flags.(leastAlloc := true);
      var limit := cfg.limit(isReq, a.cat, dest, a.lc, limitFlags, a.nargs);
      sd.v := sd.v.(dest := dest, isNbrhd := false, lcOpt := a.lc, flags := a.flags, nargs := a.nargs, size := Min(a.most, limit));
      if a.cbuf != 0 {
        sd.v := sd.v.(addr := a.cbuf, toFree := 0);
        return true;
      }
      var buf;
      AllocNpamCommutes(cfg, s0, isReq, sd.v, sd.v);
      ok, buf := AllocNpamBuffer(sd, isReq);
      if ok { sd.v := sd.v.(toFree := buf); }
    }

    method PrepareBody(isReq: bool, dest: Dest, a: PrepArgs) returns (ok: bool)
      requires Valid()
      modifies this, requestSd, replySd
      ensures var r := FinishPrepare(cfg, old(Abs()), isReq, dest, a); ok == r.Next? && (ok ==> Valid() && Abs() == r.value)
    {
      ghost var s0 := Abs();
      var sd := Own(isReq);
      sd.v := sd.v.(category := a.cat, destAddr := DestAddrOf(a.cat, a.destAddr), nargs := a.nargs);
      if dest.Local? {
        sd.v := sd.v.(isNbrhd := true, dest := Local);
        InnerCommutes(cfg, s0, isReq, sd.v, sd.v, false, a.cat, a.cbuf, a.most, a.nargs);
        ok := LoopbackPrepareInner(sd, false, isReq, a.cat, a.cbuf, a.most, a.nargs);
      } else {
        RemoteCommutes(cfg, s0, isReq, sd.v, sd.v, dest, a);
        ok := PrepareCommon(isReq, dest, a);
      }
      if ok && !SdOk(cfg, a, sd.v) { ok := false; }
    }

    method AmPrepareRequest(a: PrepArgs) returns (ok: bool)
      requires Valid()
      modifies this, requestSd, replySd
      ensures var r := DoPrepareRequest(cfg, old(Abs()), a); ok == r.Next? && (ok ==> Valid() && Abs() == r.value)
    {
      ok := InitSrcdesc(true);
      if !ok { return; }
      if !PrepOk(cfg, true, a.dest, a) { return false; }
      ok := PrepareBody(true, a.dest, a.(flags := Cleared(a.flags)));
    }

    method AmPrepareReply(prep: PrepArgs) returns (ok: bool)
      requires Valid() && InHandler(Abs())
      modifies this, requestSd, replySd
      ensures var r := DoPrepareReply(cfg, old(Abs()), prep); ok == r.Next? && (ok ==> Valid() && Abs() == r.value)
    {
      var a := prep.(flags := Cleared(prep.flags));
      var f := stack[|stack| - 1];
      ok := InitSrcdesc(false);
      if !ok { return; }
      if !PrepOk(cfg, false, f.from, a) { return false; }
      if f.from.Local? && (!f.isReq || f.replyIssued) { return false; }
      ok := PrepareBody(false, f.from, a);
      if ok && f.from.Local? {
        if stack == [] { return false; }
        stack := stack[..|stack| - 1] + [f.(replyIssued := true)];
      }
    }

    // ----- delivery --------------------------------------------------------------------

    method NoteReply(isReq: bool)
      requires Valid()
      modifies this
      ensures Valid() && Abs() == CountReply(old(Abs()), isReq)
    {
      if !isReq && stack != [] && stack[|stack| - 1].Handler? {
        var f := stack[|stack| - 1];
        stack := stack[..|stack| - 1] + [f.(replies := f.replies + 1)];
      }
    }

    method StagePayload(sd: SourceDesc, isFixed: bool, category: Category, nbytes: nat, destAddr: Ptr) returns (buf: Ptr)
      requires Valid()
      modifies this
      ensures var r := Stage(old(Abs()), old(sd.v), isFixed, category, nbytes, destAddr);
              Valid() && buf == r.0 && Abs() == old(Abs()).(mem := r.1)
    {
      match category {
        case Short =>
          buf := 0;
        case Medium =>
          buf := sd.v.voidP;
          if isFixed || buf != sd.v.addr { mem := Write(mem, buf, Read(mem, sd.v.addr, nbytes)); }
        case Long =>
          buf := destAddr;
          mem := Write(mem, buf, Read(mem, sd.v.addr, nbytes));
      }
    }

    /** Everything before the client's handler runs. */
    method LoopbackCommitInner(sd: SourceDesc, isFixed: bool, isReq: bool, category: Category, handler: nat, nbytes: nat,
                               destAddr: Ptr, args: seq<int>, postReply: bool) returns (ok: bool)
      requires Valid() && Mine(sd, isReq)
      modifies this
      ensures var r := Deliver(cfg, old(Abs()), old(sd.v), isFixed, isReq, category, handler, nbytes, destAddr, args, postReply);
              ok == r.Next? && (ok ==> Valid() && Abs() == r.value)
    {
      var buf := StagePayload(sd, isFixed, category, nbytes, destAddr);
      var entry := cfg.handlers(handler);
      if |args| > cfg.maxArgs || !CallOk(entry, |args|, category, isReq) { return false; }
      if category != Short && buf == 0 && nbytes != 0 { return false; }
      if category == Medium && nbytes != 0 && buf % cfg.align != 0 { return false; }
      NoteReply(isReq);
      var payload := if category == Short then [] else Read(mem, buf, nbytes);
      ok := RunHandler(Ran(isReq, Local, entry, category, payload, args), AfterLoopback(isFixed, category, buf, postReply));
    }

    /** The client's handler gets control. */
    method RunHandler(e: Event, after: After) returns (ok: bool)
      requires Valid() && e.Ran?
      modifies this
      ensures var r := EnterHandler(old(Abs()), e.isReq);
              ok == r.Next? && (ok ==> Valid() && Abs() == Push(r.value.(log := r.value.log + [e]), Handler(e.isReq, e.from, false, 0, after)))
    {
      ok := HandlerEnter(e.isReq);
      if !ok { return; }
      log := log + [e];
      stack := stack + [Handler(e.isReq, e.from, false, 0, after)];
    }

    /** The client's handler returns; what its message held is released. */
    method HandlerReturn() returns (ok: bool)
      requires Valid() && InHandler(Abs())
      modifies this, requestSd, replySd
      ensures var r := DoReturn(old(Abs())); ok == r.Next? && (ok ==> Valid() && Abs() == r.value)
    {
      var f := stack[|stack| - 1];
      stack := stack[..|stack| - 1];
      ok := HandlerLeave(f.isReq);
      if ok { ok := LoopbackFinish(f.isReq, f.after); }
    }

    method LoopbackFinish(isReq: bool, after: After) returns (ok: bool)
      requires Valid()
      modifies this, requestSd, replySd
      ensures var r := Finish(old(Abs()), isReq, after); ok == r.Next? && (ok ==> Valid() && Abs() == r.value)
    {
      ok := true;
      if after.AfterNetwork? { return; }
      if after.category == Medium {
        ok := FreePerthreadMediumBuffer(after.buf, isReq);
      } else if !after.isFixed && Own(isReq).v.gexBuf != 0 {
        ok := FreeNpamBuffer(isReq);
      }
      if ok && after.postReply && stack != [] && stack[|stack| - 1].Handler? {
        var g := stack[|stack| - 1];
        stack := stack[..|stack| - 1] + [g.(replyIssued := true)];
      }
    }

    // ----- Commit and Cancel ---------------------------------------------------------------

    method NetworkCommit(isReq: bool, c: CommitArgs) returns (ok: bool)
      requires Valid()
      modifies this, requestSd, replySd
      ensures var r := CommitInject(old(Abs()), isReq, c); ok == r.Next? && (ok ==> Valid() && Abs() == r.value)
    {
      var sd := Own(isReq);
      if !c.accepted {
        if !c.immediate { return false; }
        sd.v := sd.v.(active := true);
        return true;
      }
      var lc := if sd.v.lcOpt.LcNull? then LcNow else sd.v.lcOpt;
      var flags := Cleared(sd.v.flags).(immediate := c.immediate);
      log := log + [Injected(isReq, sd.v.dest, c.handler, c.cat, Read(mem, sd.v.addr, c.nbytes), DestAddrOf(c.cat, c.destAddr), c.args, lc, flags)];
      NoteReply(isReq);
      ok := true;
      if sd.v.toFree != 0 { ok := FreeNpamBuffer(isReq); }
    }

    method AmCommit(isReq: bool, c: CommitArgs) returns (ok: bool)
      requires Valid()
      modifies this, requestSd, replySd
      ensures var r := DoCommit(cfg, old(Abs()), isReq, c); ok == r.Next? && (ok ==> Valid() && Abs() == r.value)
    {
      var sd := Own(isReq);
      ok := ResetSrcdesc(isReq);
      if !ok { return; }
      if !CommitOk(sd.v, c) { return false; }
      if sd.v.isNbrhd {
        ok := LoopbackCommitInner(sd, false, isReq, c.cat, c.handler, c.nbytes, DestAddrOf(c.cat, c.destAddr), c.args, false);
      } else if isReq {
        stack := stack + [Polling(Committing(c))];
      } else {
        ok := NetworkCommit(false, c);
      }
    }

    method AmCancel(isReq: bool, category: Category) returns (ok: bool)
      requires Valid()
      modifies this, requestSd, replySd
      ensures var r := DoCancel(old(Abs()), isReq, category); ok == r.Next? && (ok ==> Valid() && Abs() == r.value)
    {
      var sd := Own(isReq);
      if !sd.v.active || sd.v.category != category { return false; }
      ok := true;
      if !sd.v.isNbrhd {
        if sd.v.toFree != 0 { ok := FreeNpamBuffer(isReq); }
      } else {
        if !isReq {
          if stack == [] || !stack[|stack| - 1].Handler? || !stack[|stack| - 1].replyIssued { return false; }
          stack := stack[..|stack| - 1] + [stack[|stack| - 1].(replyIssued := false)];
        }
        if category == Medium { ok := FreePerthreadMediumBuffer(sd.v.voidP, isReq); }
        else if sd.v.gexBuf != 0 { ok := FreeNpamBuffer(isReq); }
      }
      if ok { ok := ResetSrcdesc(isReq); }
    }

    // ----- fixed payload ---------------------------------------------------------------------

    method LoopbackReqRepGeneric(isReq: bool, a: SendArgs) returns (ok: bool)
      requires Valid()
      modifies this
      ensures var r := SendLocal(cfg, old(Abs()), isReq, a); ok == r.Next? && (ok ==> Valid() && Abs() == r.value)
    {
      var sd := new SourceDesc();
      ok := LoopbackPrepareInner(sd, true, isReq, a.cat, a.src, 0, |a.args|);
      if ok {
        ok := LoopbackCommitInner(sd, true, isReq, a.cat, a.handler, Narrow(a.nbytes), DestAddrOf(a.cat, a.destAddr), a.args, !isReq);
      }
    }

    method Inject(isReq: bool, dest: Dest, a: SendArgs)
      requires Valid()
      modifies this
      ensures Valid() && Abs() == SendRemote(old(Abs()), isReq, dest, a)
    {
      var payload := if a.cat == Short then [] else Read(mem, a.src, a.nbytes);
      log := log + [Injected(isReq, dest, a.handler, a.cat, payload, DestAddrOf(a.cat, a.destAddr), a.args, LcNow, Flags(false, false, false))];
      NoteReply(isReq);
    }

    method AmRequest(a: SendArgs) returns (ok: bool)
      requires Valid()
      modifies this
      ensures var r := DoSendRequest(cfg, old(Abs()), a); ok == r.Next? && (ok ==> Valid() && Abs() == r.value)
    {
      if |a.args| > cfg.maxArgs { return false; }
      ok := CheckInjection(false);
      if !ok || BadArg(cfg, true, a.dest, a) { return; }
      stack := stack + [Polling(Sending(a))];
    }

    method AmReply(a: SendArgs) returns (ok: bool)
      requires Valid() && InHandler(Abs())
      modifies this
      ensures var r := DoSendReply(cfg, old(Abs()), a); ok == r.Next? && (ok ==> Valid() && Abs() == r.value)
    {
      var f := stack[|stack| - 1];
      if |a.args| > cfg.maxArgs { return false; }
      ok := CheckInjection(true);
      if !ok || BadArg(cfg, false, f.from, a) { return; }
      if f.from.Remote? { Inject(false, f.from, a); return; }
      if !f.isReq || f.replyIssued { return false; }
      ok := LoopbackReqRepGeneric(false, a);
    }

    /** The poll inside a library call is over; the call goes on. */
    method EndOfPoll() returns (ok: bool)
      requires Valid() && !ClientRuns(Abs())
      modifies this, requestSd, replySd
      ensures var r := DoEndPoll(cfg, old(Abs())); ok == r.Next? && (ok ==> Valid() && Abs() == r.value)
    {
      var call := stack[|stack| - 1].call;
      stack := stack[..|stack| - 1];
      ok := true;
      match call {
        case JustPoll =>
        case Preparing(a) => ok := AmPrepareRequest(a);
        case Sending(a) => if a.dest.Local? { ok := LoopbackReqRepGeneric(true, a); } else { Inject(true, a.dest, a); }
        case Committing(c) => ok := NetworkCommit(true, c);
      }
    }

    /** One action of the client or of the network. */
    method Perform(act: Action) returns (ok: bool)
      requires Valid()
      modifies this, requestSd, replySd
      ensures var r := Step(cfg, old(Abs()), act); ok == r.Next? && (ok ==> Valid() && Abs() == r.value)
    {
      var clientRuns := stack == [] || stack[|stack| - 1].Handler?;
      var inHandler := stack != [] && clientRuns;
      if clientRuns == (act.Arrive? || act.EndPoll?) { return false; }
      ok := true;
      match act {
        case Store(at, bytes) => mem := Write(mem, at, bytes);
        case Poll =>
          ok := CheckInjection(false);
          if ok { stack := stack + [Polling(JustPoll)]; }
        case SendRequest(a) => ok := AmRequest(a);
        case SendReply(a) => if inHandler { ok := AmReply(a); } else { ok := false; }
        case PrepareRequest(a) => stack := stack + [Polling(Preparing(a))];
        case PrepareReply(a) => if inHandler { ok := AmPrepareReply(a); } else { ok := false; }
        case CommitRequest(c) => ok := AmCommit(true, c);
        case CommitReply(c) => ok := AmCommit(false, c);
        case CancelRequest(cat) => ok := AmCancel(true, cat);
        case CancelReply(cat) => ok := AmCancel(false, cat);
        case Return => if inHandler { ok := HandlerReturn(); } else { ok := false; }
        case Arrive(isReq, from, handler, category, payload, args) =>
          ok := RunHandler(Ran(isReq, Remote(from), cfg.handlers(handler), category, payload, args), AfterNetwork);
        case EndPoll => ok := EndOfPoll();
      }
    }

    /** A whole disciplined program: no check of the debug build ever fires. */
    method Execute(acts: seq<Action>, ghost v: View)
      requires Valid() && ConfigOk(cfg) && Related(cfg, v, Abs()) && Disciplined(cfg, v, acts)
      modifies this, requestSd, replySd
      ensures Valid() && Related(cfg, Views(cfg, v, acts), Abs())
      ensures Run(cfg, old(Abs()), acts) == Next(Abs())
    {
      ghost var start, w := Abs(), v;
      var i := 0;
      while i < |acts|
        invariant 0 <= i <= |acts| && Valid() && Related(cfg, w, Abs()) && Disciplined(cfg, w, acts[i..])
        invariant Views(cfg, w, acts[i..]) == Views(cfg, v, acts)
        invariant Run(cfg, start, acts) == Run(cfg, Abs(), acts[i..])
      {
        StepGood(cfg, w, Abs(), acts[i]);
        w := Advance(cfg, w, acts[i]);
        assert acts[i..][1..] == acts[i + 1..];
        var ok := Perform(acts[i]);
        assert ok;
        i := i + 1;
      }
      assert acts[i..] == [];
    }
  }
}
