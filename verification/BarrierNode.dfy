/** One node of the AMDISSEM split-phase barrier: the consensus values it
    merges and what each of its entry points does to its fields. */
module BarrierNode {

  /** A barrier name as it travels: the two flag bits that matter, and the id. */
  datatype Notice = Notice(anon: bool, mismatch: bool, value: int)

  /** How a stored notice absorbs another, in the receive handler and in the kick. */
  function Merge(stored: Notice, other: Notice): Notice {
    if stored.mismatch || other.mismatch then Notice(false, true, stored.value)
    else if stored.anon then other
    else if !other.anon && other.value != stored.value then Notice(false, true, stored.value)
    else stored
  }

  /** What a notice says about the name of the barrier. */
  datatype Verdict = Open | Agreed(value: int) | Clash

  function Meaning(x: Notice): Verdict {
    if x.mismatch then Clash else if x.anon then Open else Agreed(x.value)
  }

  /** The information order: Open below every name, every name below Clash. */
  predicate Leq(x: Verdict, y: Verdict) {
    x == Open || x == y || y == Clash
  }

  /** Merging is the least upper bound of the information order. */
  lemma {:induction false} MergeIsJoin(a: Notice, b: Notice, y: Verdict)
    ensures Leq(Meaning(a), Meaning(Merge(a, b))) && Leq(Meaning(b), Meaning(Merge(a, b)))
    ensures Leq(Meaning(a), y) && Leq(Meaning(b), y) ==> Leq(Meaning(Merge(a, b)), y)
  {
  }

  datatype Node = Node(
    step: nat,              // amdbarrier_step
    phase: nat,             // amdbarrier_phase
    local: Notice,          // amdbarrier_value, amdbarrier_flags
    done: seq<seq<bool>>,   // amdbarrier_step_done[2][]
    recv: seq<Notice>,      // amdbarrier_recv_value[2], amdbarrier_recv_flags[2]
    active: bool,           // between the end of notify and the end of wait
    entering: bool          // inside notify: step has been reset, phase not yet flipped
  )

  ghost predicate Shaped(nd: Node, size: nat) {
    && nd.phase < 2 && nd.step <= size
    && |nd.recv| == 2 && |nd.done| == 2
    && |nd.done[0]| == size && |nd.done[1]| == size
  }

  function InitNode(size: nat): (nd: Node)
    ensures Shaped(nd, size)
  {
    var none := seq(size, i => false);
    Node(0, 0, Notice(false, false, 0), [none, none],
         [Notice(true, false, 0), Notice(true, false, 0)], false, false)
  }

  /** First half of notify: the local name and the step are written. */
  function BeginNotify(nd: Node, x: Notice): Node {
    nd.(local := x, step := 0, entering := true)
  }

  /** Second half of notify: the phase flips.  A singleton team has nobody to
      ask, so its own notice becomes the outcome at once. */
  function FinishNotify(nd: Node, size: nat): Node
    requires Shaped(nd, size)
  {
    var flipped := nd.(phase := 1 - nd.phase, entering := false, active := true);
    if size == 0 then flipped.(recv := flipped.recv[flipped.phase := nd.local]) else flipped
  }

  /** The locked part of the receive handler. */
  function Absorb(nd: Node, size: nat, phase: nat, x: Notice): Node
    requires Shaped(nd, size) && phase < 2
  {
    nd.(recv := nd.recv[phase := Merge(nd.recv[phase], x)])
  }

  /** The end of the receive handler. */
  function MarkDone(nd: Node, size: nat, phase: nat, step: nat): Node
    requires Shaped(nd, size) && phase < 2 && step < size
  {
    nd.(done := nd.done[phase := nd.done[phase][step := true]])
  }

  /** The first step at or after `from` whose message is still missing. */
  function Cursor(d: seq<bool>, from: nat): (c: nat)
    requires from <= |d|
    ensures from <= c <= |d|
    ensures forall i :: from <= i < c ==> d[i]
    ensures c < |d| ==> !d[c]
    decreases |d| - from
  {
    if from < |d| && d[from] then Cursor(d, from + 1) else from
  }

  function Cleared(d: seq<bool>, from: nat, to: nat): (r: seq<bool>)
    requires from <= to <= |d|
    ensures |r| == |d|
    ensures forall i :: 0 <= i < |d| ==> r[i] == (d[i] && !(from <= i < to))
  {
    seq(|d|, i requires 0 <= i < |d| => if from <= i < to then false else d[i])
  }

  function KickCursor(nd: Node, size: nat): (c: nat)
    requires Shaped(nd, size)
    ensures nd.step <= c <= size
  {
    Cursor(nd.done[nd.phase], nd.step)
  }

  /** The notice that a kick forwards: what was received, and the local notice
      if this is the first step. */
  function KickNotice(nd: Node, size: nat): Notice
    requires Shaped(nd, size)
  {
    if nd.step == 0 then Merge(nd.recv[nd.phase], nd.local) else nd.recv[nd.phase]
  }

  /** The locked part of a kick: consume the completed steps in one go. */
  function Kick(nd: Node, size: nat): Node
    requires Shaped(nd, size)
  {
    var c := KickCursor(nd, size);
    if c == nd.step then nd
    else
      nd.(done := nd.done[nd.phase := Cleared(nd.done[nd.phase], nd.step, c)],
          recv := nd.recv[nd.phase := KickNotice(nd, size)],
          step := c)
  }

  /** The state left by a wait that succeeds. */
  function Leave(nd: Node, size: nat): Node
    requires Shaped(nd, size)
  {
    nd.(local := nd.recv[nd.phase],
        recv := nd.recv[nd.phase := Notice(true, false, nd.recv[nd.phase].value)],
        active := false)
  }

  /** Does a wait that names (id, flags) report GASNET_ERR_BARRIER_MISMATCH? */
  predicate WaitMismatch(nd: Node, size: nat, x: Notice)
    requires Shaped(nd, size)
  {
    var r := nd.recv[nd.phase];
    r.mismatch || (!x.anon && !r.anon && x.value != r.value)
  }
}
