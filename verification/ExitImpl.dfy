/** The exit handlers as they update a node's atomics, and a job of N such nodes
    with the messages between them. */
module ExitImpl {
  import opened ExitProtocol

  class ExitNode {
    var role: Role
    var reqs: nat
    var reps: nat

    constructor ()
      ensures role == Unknown && reqs == 0 && reps == 0
    {
      role, reqs, reps := Unknown, 0, 0;
    }

    method CompareAndSwap(expected: Role, wanted: Role) returns (won: bool)
      modifies `role
      ensures won == (old(role) == expected)
      ensures role == if won then wanted else old(role)
    {
      won := role == expected;
      if won { role := wanted; }
    }

    /** Runs on the root only. */
    method ExitRoleReqh(src: nat) returns (result: Role)
      modifies `role
      ensures role == Claim(old(role), RootShare(src)) && result == Verdict(old(role))
    {
      var localRole := if src == 0 then Leader else Member;
      var won := CompareAndSwap(Unknown, localRole);
      result := if won then Leader else Member;
    }

    method ExitRoleReph(given: Role) returns (ok: bool)
      modifies `role
      ensures role == Claim(old(role), given) && ok == (given != Unknown && role == given)
    {
      ok := given == Leader || given == Member;
      var _ := CompareAndSwap(Unknown, given);
      ok := ok && role == given;
    }

    method ExitReqh() returns (ok: bool)
      modifies `role, `reqs
      ensures ok == (old(role) != Leader && old(reqs) == 0)
      ensures role == Claim(old(role), Member) && reqs == old(reqs) + 1
    {
      ok := role != Leader && reqs == 0;
      var _ := CompareAndSwap(Unknown, Member);
      reqs := reqs + 1;
    }

    method ExitReph()
      modifies `reps
      ensures reps == old(reps) + 1
    {
      reps := reps + 1;
    }
  }

  /** N nodes and what is in flight between them.  A step runs the handler of one
      node and moves the messages; false is a failed assertion of a handler. */
  class Job {
    const nodes: seq<ExitNode>
    var asked: set<nat>
    var elReq: set<nat>
    var elRep: map<nat, Role>
    var told: set<(nat, nat)>
    var exReq: set<(nat, nat)>
    var exRep: set<(nat, nat)>
    var sent: nat

    ghost predicate Represents(s: System)
      reads this, nodes
    {
      && Shaped(s) && |nodes| == s.n
      && (forall i, j :: 0 <= i < j < |nodes| ==> nodes[i] != nodes[j])
      && (forall i :: 0 <= i < |nodes| ==>
            nodes[i].role == s.roles[i] && nodes[i].reqs == s.reqs[i] && nodes[i].reps == s.reps[i])
      && asked == s.asked && elReq == s.elReq && elRep == s.elRep
      && told == s.told && exReq == s.exReq && exRep == s.exRep && sent == s.sent
    }

    constructor (n: nat, ghost start: System)
      requires Init(start) && start.n == n
      ensures Represents(start) && fresh(nodes)
    {
      var made: seq<ExitNode> := [];
      while |made| < n
        invariant |made| <= n && fresh(made)
        invariant forall i, j :: 0 <= i < j < |made| ==> made[i] != made[j]
        invariant forall i :: 0 <= i < |made| ==> made[i].role == Unknown && made[i].reqs == 0 && made[i].reps == 0
      {
        var node := new ExitNode();
        made := made + [node];
      }
      nodes := made;
      asked, elReq, elRep, told, exReq, exRep, sent := {}, {}, map[], {}, {}, {}, 0;
    }

    /** A node asks to be elected, or a message of the election is handled. */
    method Elect(t: Step, ghost s: System) returns (ok: bool)
      requires Represents(s) && Enabled(s, t) && (t.Ask? || t.RoleReqh? || t.RoleReph?)
      modifies this, nodes
      ensures ok == AssertionsHold(s, t)
      ensures Represents(Apply(s, t))
    {
      ok := true;
      match t {
        case Ask(x) =>
          asked, elReq, sent := asked + {x}, elReq + {x}, sent + 1;
        case RoleReqh(x) =>
          var result := nodes[0].ExitRoleReqh(x);
          elReq, elRep, sent := elReq - {x}, elRep[x := result], sent + 1;
        case RoleReph(x) =>
          ok := nodes[x].ExitRoleReph(elRep[x]);
          elRep := elRep - {x};
      }
    }

    /** The leader tells a peer, or a message of the exit is handled. */
    method Tell(t: Step, ghost s: System) returns (ok: bool)
      requires Represents(s) && Enabled(s, t) && (t.TellExit? || t.ExitReqh? || t.ExitReph?)
      modifies this, nodes
      ensures ok == AssertionsHold(s, t)
      ensures Represents(Apply(s, t))
    {
      ok := true;
      match t {
        case TellExit(x, d) =>
          told, exReq, sent := told + {(x, d)}, exReq + {(x, d)}, sent + 1;
        case ExitReqh(x, d) =>
          ok := nodes[d].ExitReqh();
          exReq, exRep, sent := exReq - {(x, d)}, exRep + {(x, d)}, sent + 1;
        case ExitReph(x, d) =>
          nodes[x].ExitReph();
          exRep := exRep - {(x, d)};
      }
    }

    method Perform(t: Step, ghost s: System) returns (ok: bool)
      requires Represents(s) && Enabled(s, t)
      modifies this, nodes
      ensures ok == AssertionsHold(s, t)
      ensures Represents(Apply(s, t))
    {
      if t.Ask? || t.RoleReqh? || t.RoleReph? { ok := Elect(t, s); } else { ok := Tell(t, s); }
    }

    /** Any interleaving, on the nodes themselves: no assertion of a handler fails,
        and the nodes end as the protocol says. */
    method Execute(ts: seq<Step>, ghost s: System, ghost goal: System)
      requires Represents(s) && Inv(s) && Run(s, ts, goal)
      modifies this, nodes
      ensures Represents(goal) && Inv(goal)
    {
      ghost var now := s;
      var i := 0;
      while i < |ts|
        invariant 0 <= i <= |ts| && Represents(now) && Inv(now) && Run(now, ts[i..], goal)
      {
        InvStep(now, ts[i]);
        var ok := Perform(ts[i], now);
        assert ok;
        assert ts[i..][1..] == ts[i + 1..];
        now := Apply(now, ts[i]);
        i := i + 1;
      }
    }
  }
}
