/** Whole runs of the leader/member exit: how long they are, that they complete,
    and which numbers of messages occur. */
module ExitRuns {
  import opened ExitProtocol

  /** Steps that can still be taken: three for each node that has not asked and each
      peer that has not been told, fewer for messages already on their way. */
  ghost function Left(s: System): int {
    3 * (s.n - |s.asked|) + 2 * |s.elReq| + |s.elRep.Keys| + 3 * (s.n - 1 - |s.told|) + 2 * |s.exReq| + |s.exRep|
  }

  lemma {:induction false} LeftNonNegative(s: System)
    requires Inv(s)
    ensures Left(s) >= 0
  {
    AskedCount(s);
    if p :| p in s.told {
      assert PairOk(s, p);
      ToldAreOthers(s, p.0);
      OthersCount(s.n, p.0);
      SmallerSet(s.told, Others(s.n, p.0));
    }
  }

  lemma {:induction false} SmallerSet(a: set<(nat, nat)>, b: set<(nat, nat)>)
    requires a <= b
    ensures |a| <= |b|
  {
    assert b == a + (b - a);
  }

  lemma {:induction false} AddOne<T>(a: set<T>, x: T)
    requires x !in a
    ensures |a + {x}| == |a| + 1
  {
  }

  lemma {:induction false} DropOne<T>(a: set<T>, x: T)
    requires x in a
    ensures |a - {x}| == |a| - 1
  {
  }

  lemma {:induction false} ElectionUsesOne(s: System, t: Step)
    requires Shaped(s) && ElectionOk(s) && Enabled(s, t) && (t.Ask? || t.RoleReqh? || t.RoleReph?)
    ensures Left(Apply(s, t)) == Left(s) - 1
  {
    var s' := Apply(s, t);
    match t
    case Ask(x) =>
      AddOne(s.asked, x);
      AddOne(s.elReq, x);
    case RoleReqh(x) =>
      DropOne(s.elReq, x);
      AddOne(s.elRep.Keys, x);
      assert s'.elRep.Keys == s.elRep.Keys + {x};
    case RoleReph(x) =>
      DropOne(s.elRep.Keys, x);
      assert s'.elRep.Keys == s.elRep.Keys - {x};
  }

  lemma {:induction false} ExitUsesOne(s: System, t: Step)
    requires Shaped(s) && Enabled(s, t) && (t.TellExit? || t.ExitReqh? || t.ExitReph?)
    requires t.ExitReqh? ==> (t.x, t.d) !in s.exRep
    ensures Left(Apply(s, t)) == Left(s) - 1
  {
    match t
    case TellExit(x, d) =>
      AddOne(s.told, (x, d));
      AddOne(s.exReq, (x, d));
    case ExitReqh(x, d) =>
      DropOne(s.exReq, (x, d));
      AddOne(s.exRep, (x, d));
    case ExitReph(x, d) =>
      DropOne(s.exRep, (x, d));
  }

  /** Every step of every kind uses up exactly one. */
  lemma {:induction false} StepUsesOne(s: System, t: Step)
    requires Inv(s) && Enabled(s, t)
    ensures Left(Apply(s, t)) == Left(s) - 1
  {
    if t.Ask? || t.RoleReqh? || t.RoleReph? {
      ElectionUsesOne(s, t);
    } else {
      if t.ExitReqh? { assert PairOk(s, (t.x, t.d)); }
      ExitUsesOne(s, t);
    }
  }

  lemma {:induction false} RunUsesItsLength(s: System, ts: seq<Step>, s': System)
    requires Inv(s) && Run(s, ts, s')
    ensures Inv(s') && |ts| == Left(s) - Left(s')
    decreases |ts|
  {
    if ts != [] {
      InvStep(s, ts[0]);
      StepUsesOne(s, ts[0]);
      RunUsesItsLength(Apply(s, ts[0]), ts[1..], s');
    }
  }

  /** No run is longer than 6N - 3 steps. */
  lemma {:induction false} RunsAreBounded(s: System, ts: seq<Step>, s': System)
    requires Init(s) && Run(s, ts, s')
    ensures |ts| <= 6 * s.n - 3
  {
    InvInit(s);
    RunUsesItsLength(s, ts, s');
    LeftNonNegative(s');
  }

  /** So every run completes: when somebody has asked and no message can be handled
      and no peer told any more, the exit is complete. */
  lemma {:induction false} StuckMeansCompleted(s: System)
    requires Reachable(s) && s.asked != {}
    ensures Shaped(s)
    ensures (forall t :: Enabled(s, t) ==> t.Ask?) ==> exists x :: Completed(s, x)
  {
    ReachableInv(s);
    if forall x :: !Completed(s, x) {
      var t := ExitProgress(s);
      assert Enabled(s, t) && !t.Ask?;
    }
  }

  lemma {:induction false} RunSnoc(s: System, ts: seq<Step>, s': System, t: Step)
    requires Run(s, ts, s') && Shaped(s') && Enabled(s', t) && Shaped(Apply(s', t))
    ensures Run(s, ts + [t], Apply(s', t))
    decreases |ts|
  {
    if ts == [] {
      assert [t][1..] == [] && ts + [t] == [t];
      assert Run(Apply(s', t), [], Apply(s', t));
    } else {
      assert (ts + [t])[1..] == ts[1..] + [t];
      RunSnoc(Apply(s, ts[0]), ts[1..], s', t);
    }
  }

  lemma {:induction false} ReachableStep(s: System, t: Step)
    requires Reachable(s) && Shaped(s) && Enabled(s, t)
    ensures Reachable(Apply(s, t))
  {
    var s0, ts :| Init(s0) && Run(s0, ts, s);
    ShapedStep(s, t);
    RunSnoc(s0, ts, s, t);
  }

  /** From every reachable state in which somebody has asked, the exit completes
      without anybody else having to ask. */
  lemma {:induction false} ExitCompletes(s: System) returns (s': System, x: nat)
    requires Reachable(s) && s.asked != {}
    ensures Reachable(s') && Completed(s', x) && s'.asked == s.asked && s'.n == s.n
    decreases Left(s)
  {
    ReachableInv(s);
    if y :| Completed(s, y) {
      return s, y;
    }
    var t := ExitProgress(s);
    ReachableStep(s, t);
    StepUsesOne(s, t);
    InvStep(s, t);
    LeftNonNegative(Apply(s, t));
    s', x := ExitCompletes(Apply(s, t));
  }

  /** The first k nodes have asked, and nothing else has happened. */
  ghost predicate JustAsked(s: System, n: nat, k: nat) {
    && Shaped(s) && s.n == n && |s.asked| == k
    && (forall x :: x in s.asked ==> x < k)
    && (forall x :: 0 <= x < n ==> s.roles[x] == Unknown)
  }

  lemma {:induction false} StartReachable(n: nat) returns (s: System)
    requires 0 < n
    ensures Reachable(s) && JustAsked(s, n, 0)
  {
    s := System(n, seq(n, i => Unknown), {}, {}, map[], {}, {}, {}, seq(n, i => 0), seq(n, i => 0), 0);
    assert Init(s) && Run(s, [], s);
  }

  lemma {:induction false} OneMoreAsks(r: System, n: nat, k: nat)
    requires Reachable(r) && JustAsked(r, n, k) && k < n
    ensures Reachable(Apply(r, Ask(k))) && JustAsked(Apply(r, Ask(k)), n, k + 1)
  {
    ReachableStep(r, Ask(k));
    ShapedStep(r, Ask(k));
    AddOne(r.asked, k);
  }

  lemma {:induction false} AskInTurn(n: nat, k: nat) returns (s: System)
    requires 0 < n && k <= n
    ensures Reachable(s) && JustAsked(s, n, k)
  {
    if k == 0 {
      s := StartReachable(n);
    } else {
      s := AskInTurn(n, k - 1);
      OneMoreAsks(s, n, k - 1);
      s := Apply(s, Ask(k - 1));
    }
  }

  /** Every even number of messages from 2N to 4N - 2 occurs, so both bounds are
      attained: k candidates, all of them asking before they know their role. */
  lemma {:induction false} EveryCountOccurs(n: nat, k: nat) returns (s: System, x: nat)
    requires 1 <= k <= n
    ensures Reachable(s) && Completed(s, x) && s.n == n && s.sent == 2 * k + 2 * (n - 1)
  {
    var r := AskInTurn(n, k);
    assert r.asked != {};
    s, x := ExitCompletes(r);
    CompletedExit(s, x, x);
  }
}
