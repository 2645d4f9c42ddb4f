/** The barrier object of one node as the reference code writes it: flag words,
    a two-row array of step marks, a kick loop.  Each entry point is tied to the
    node function of the same name; BarrierTeam puts N of them on a network. */
module BarrierImpl {
  import opened Dissemination
  import opened BarrierNode

  /** One barrier active message handed to the network. */
  datatype Send = Send(peer: nat, phase: nat, step: nat, notice: Notice)

  /** The messages a kick leaves: one for each step it opens, none after the last. */
  ghost predicate SentByKick(sends: seq<Send>, peers: seq<nat>, nd: Node, size: nat)
    requires Shaped(nd, size) && |peers| == size
  {
    var c := KickCursor(nd, size);
    var last := if c == size && c > nd.step then c - 1 else c;
    && |sends| == last - nd.step
    && forall i :: 0 <= i < |sends| ==>
         sends[i] == Send(peers[nd.step + 1 + i], nd.phase, nd.step + 1 + i, KickNotice(nd, size))
  }

  /** The peers of rank x in a team of n. */
  ghost predicate PeersOf(peers: seq<nat>, n: nat, x: nat) {
    x < n && IsCeilLg(n, |peers|) && forall i :: 0 <= i < |peers| ==> Pow2(i) <= n && peers[i] == Fwd(n, x, i)
  }

  /** The chain of flag tests that the receive handler and the kick both have. */
  method MergeFlags(anon: bool, mismatch: bool, value: int, x: Notice) returns (rAnon: bool, rMismatch: bool, rValue: int)
    ensures Notice(rAnon, rMismatch, rValue) == Merge(Notice(anon, mismatch, value), x)
  {
    rAnon, rMismatch, rValue := anon, mismatch, value;
    if mismatch || x.mismatch {
      rAnon, rMismatch := false, true;
    } else if anon {
      rAnon, rMismatch, rValue := x.anon, x.mismatch, x.value;
    } else if !x.anon && x.value != value {
      rAnon, rMismatch := false, true;
    }
  }

  class AmdBarrier {
    const size: nat
    const peers: seq<nat>
    var anon: bool
    var mismatch: bool
    var value: int
    var step: nat
    var phase: nat
    const stepDone: array2<bool>
    const recvAnon: array<bool>
    const recvMismatch: array<bool>
    const recvValue: array<int>
    ghost var active: bool
    ghost var entering: bool

    ghost predicate Represents(nd: Node)
      reads this, stepDone, recvAnon, recvMismatch, recvValue
    {
      && Shaped(nd, size) && |peers| == size
      && stepDone.Length0 == 2 && stepDone.Length1 == size
      && recvAnon.Length == 2 && recvMismatch.Length == 2 && recvValue.Length == 2
      && recvAnon != recvMismatch
      && step == nd.step && phase == nd.phase && active == nd.active && entering == nd.entering
      && Notice(anon, mismatch, value) == nd.local
      && (forall p :: 0 <= p < 2 ==> Notice(recvAnon[p], recvMismatch[p], recvValue[p]) == nd.recv[p])
      && (forall p, i :: 0 <= p < 2 && 0 <= i < size ==> stepDone[p, i] == nd.done[p][i])
    }

    ghost predicate Wired(n: nat, x: nat) { |peers| == size && PeersOf(peers, n, x) }

    ghost function Repr(): set<object>
    {
      {this, stepDone, recvAnon, recvMismatch, recvValue}
    }

    /** The barrier of rank myrank in a team, with the team's list of peers. */
    constructor (totalRanks: nat, myrank: nat)
      requires myrank < totalRanks
      ensures Wired(totalRanks, myrank) && Represents(InitNode(size)) && fresh(Repr())
    {
      var fwd, bwd := BuildPeers(totalRanks, myrank);
      this.size := |fwd|;
      this.peers := fwd;
      anon, mismatch, value, step, phase, active, entering := false, false, 0, 0, 0, false, false;
      stepDone := new bool[2, |fwd|]((p, i) => false);
      recvAnon := new bool[2](p => true);
      recvMismatch := new bool[2](p => false);
      recvValue := new int[2](p => 0);
    }

    /** gasnete_amdbarrier_notify up to the flip of the phase. */
    method NotifyBegin(id: int, isAnon: bool, isMismatch: bool, ghost nd: Node)
      requires Represents(nd)
      modifies this
      ensures Represents(BeginNotify(nd, Notice(isAnon, isMismatch, id)))
    {
      value, anon, mismatch, step := id, isAnon, isMismatch, 0;
      entering := true;
    }

    /** The rest of notify, for teams with and without peers. */
    method NotifyFinish(ghost nd: Node) returns (sends: seq<Send>)
      requires Represents(nd)
      modifies this, recvAnon, recvMismatch, recvValue
      ensures Represents(FinishNotify(nd, size))
      ensures size == 0 ==> sends == []
      ensures size > 0 ==> sends == [Send(peers[0], 1 - nd.phase, 0, nd.local)]
    {
      phase := 1 - phase;
      sends := [];
      if size == 0 {
        recvValue[phase] := value;
        recvAnon[phase] := anon;
        recvMismatch[phase] := mismatch;
      } else {
        sends := [Send(peers[0], phase, 0, Notice(anon, mismatch, value))];
      }
      entering, active := false, true;
    }

    /** The locked half of the receive handler. */
    method NotifyReqhMerge(p: nat, x: Notice, ghost nd: Node)
      requires Represents(nd) && p < 2
      modifies recvAnon, recvMismatch, recvValue
      ensures Represents(Absorb(nd, size, p, x))
    {
      var rAnon, rMismatch, rValue := MergeFlags(recvAnon[p], recvMismatch[p], recvValue[p], x);
      recvAnon[p], recvMismatch[p], recvValue[p] := rAnon, rMismatch, rValue;
    }

    /** The unlocked half: `ok` is the debug check on the mark. */
    method NotifyReqhMark(p: nat, i: nat, ghost nd: Node) returns (ok: bool)
      requires Represents(nd) && p < 2 && i < size
      modifies stepDone
      ensures ok == !nd.done[p][i]
      ensures Represents(MarkDone(nd, size, p, i))
    {
      ok := !stepDone[p, i];
      stepDone[p, i] := true;
    }

    /** The first loop of a kick: clear the marks of the steps that are complete. */
    method ConsumeMarks(ghost nd: Node) returns (cursor: nat)
      requires Represents(nd)
      modifies stepDone
      ensures cursor == KickCursor(nd, size)
      ensures Represents(nd.(done := nd.done[nd.phase := Cleared(nd.done[nd.phase], nd.step, cursor)]))
    {
      cursor := step;
      while cursor < size && stepDone[phase, cursor]
        invariant step <= cursor <= size && Cursor(nd.done[nd.phase], cursor) == KickCursor(nd, size)
        invariant forall p, i :: 0 <= p < 2 && 0 <= i < size ==>
          stepDone[p, i] == (nd.done[p][i] && !(p == phase && step <= i < cursor))
        decreases size - cursor
      {
        stepDone[phase, cursor] := false;
        cursor := cursor + 1;
      }
    }

    /** The first kick of an episode folds in the local notice. */
    method MergeLocal(ghost nd: Node)
      requires Represents(nd)
      modifies recvAnon, recvMismatch, recvValue
      ensures Represents(Absorb(nd, size, nd.phase, nd.local))
    {
      var fAnon, fMismatch, fValue := MergeFlags(recvAnon[phase], recvMismatch[phase], recvValue[phase], Notice(anon, mismatch, value));
      recvAnon[phase], recvMismatch[phase], recvValue[phase] := fAnon, fMismatch, fValue;
    }

    /** The second loop of a kick: one message for each step now open. */
    method SendSteps(from: nat, count: nat, p: nat, x: Notice) returns (sends: seq<Send>)
      requires |peers| == size && (count > 0 ==> from + count < size)
      ensures |sends| == count
      ensures forall i :: 0 <= i < count ==> sends[i] == Send(peers[from + 1 + i], p, from + 1 + i, x)
    {
      sends := [];
      var s := from;
      var numsteps := count;
      while numsteps > 0
        invariant from <= s && 0 <= numsteps && s + numsteps == from + count && |sends| == s - from
        invariant forall i :: 0 <= i < |sends| ==> sends[i] == Send(peers[from + 1 + i], p, from + 1 + i, x)
        decreases numsteps
      {
        s := s + 1;
        sends := sends + [Send(peers[s], p, s, x)];
        numsteps := numsteps - 1;
      }
    }

    /** Records a notice and a cursor computed under the lock. */
    method AdvanceTo(cursor: nat, ghost nd: Node)
      requires Represents(nd) && cursor <= size
      modifies `step
      ensures Represents(nd.(step := cursor))
    {
      step := cursor;
    }

    /** The locked part of a kick; `x` is the notice to forward. */
    method KickLocked(ghost nd: Node) returns (cursor: nat, x: Notice)
      requires Represents(nd)
      modifies this, stepDone, recvAnon, recvMismatch, recvValue
      ensures cursor == KickCursor(nd, size) && Represents(Kick(nd, size))
      ensures cursor > nd.step ==> x == KickNotice(nd, size)
    {
      cursor := ConsumeMarks(nd);
      ghost var nd1 := nd.(done := nd.done[nd.phase := Cleared(nd.done[nd.phase], nd.step, cursor)]);
      x := Notice(recvAnon[phase], recvMismatch[phase], recvValue[phase]);
      if cursor > step {
        ghost var nd2 := nd1;
        if step == 0 {
          MergeLocal(nd1);
          nd2 := Absorb(nd1, size, nd.phase, nd.local);
          x := Notice(recvAnon[phase], recvMismatch[phase], recvValue[phase]);
        }
        AdvanceTo(cursor, nd2);
        assert nd2.(step := cursor) == Kick(nd, size);
      } else {
        assert Cleared(nd.done[nd.phase], nd.step, cursor) == nd.done[nd.phase];
        assert nd1.done == nd.done;
      }
    }

    /** Consumes every completed step under one lock acquisition, then sends. */
    method KickLoop(ghost nd: Node) returns (sends: seq<Send>)
      requires Represents(nd)
      modifies this, stepDone, recvAnon, recvMismatch, recvValue
      ensures Represents(Kick(nd, size))
      ensures SentByKick(sends, peers, nd, size)
    {
      sends := [];
      if step == size { return; }
      var from := step;
      var cursor, x := KickLocked(nd);
      var numsteps := cursor - from;
      if numsteps > 0 {
        if cursor == size { numsteps := numsteps - 1; }
        sends := SendSteps(from, numsteps, phase, x);
      }
    }

    /** The end of wait, once step == size. */
    method WaitFinish(id: int, isAnon: bool, ghost nd: Node) returns (mismatched: bool)
      requires Represents(nd)
      modifies this, recvAnon, recvMismatch
      ensures Represents(Leave(nd, size))
      ensures mismatched == WaitMismatch(nd, size, Notice(isAnon, false, id))
    {
      mismatched := false;
      if recvMismatch[phase] {
        mismatched := true;
      } else if !isAnon && !recvAnon[phase] && id != recvValue[phase] {
        mismatched := true;
      }
      value, anon, mismatch := recvValue[phase], recvAnon[phase], recvMismatch[phase];
      recvAnon[phase] := true;
      recvMismatch[phase] := false;
      active := false;
    }

    /** The result call: the name, and whether there is none. */
    method Result(ghost nd: Node) returns (id: int, isAnon: bool)
      requires Represents(nd)
      ensures Meaning(nd.local).Agreed? ==> !isAnon && id == Meaning(nd.local).value
      ensures Meaning(nd.local) == Open ==> isAnon
    {
      id, isAnon := value, anon;
    }
  }
}
