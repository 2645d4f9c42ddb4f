/** The leader/member part of a non-collective ibv-conduit exit: election at the
    root node by compare-and-swap, then remote exit requests and their replies.
    Timeouts are not part of the model. */
module ExitProtocol {

  datatype Role = Unknown | Leader | Member

  /** Atomic compare-and-swap of a role that is still unknown. */
  function Claim(current: Role, wanted: Role): Role { if current == Unknown then wanted else current }

  /** What the root answers to an election request, given its own role. */
  function Verdict(rootRole: Role): Role { if rootRole == Unknown then Leader else Member }

  /** The role the root takes if `src` is made leader. */
  function RootShare(src: nat): Role { if src == 0 then Leader else Member }

  datatype System = System(
    n: nat,
    roles: seq<Role>,
    asked: set<nat>,             // nodes that have sent an election request
    elReq: set<nat>,             // election requests in flight, by source
    elRep: map<nat, Role>,       // election replies in flight, by destination
    told: set<(nat, nat)>,       // exit requests sent: (sender, destination)
    exReq: set<(nat, nat)>,      // exit requests in flight
    exRep: set<(nat, nat)>,      // replies to exit requests in flight, by the request
    reqs: seq<nat>,              // exit requests handled at each node
    reps: seq<nat>,              // replies to exit requests handled at each node
    sent: nat                    // active messages sent so far
  )

  datatype Step =
    | Ask(x: nat)
    | RoleReqh(x: nat)
    | RoleReph(x: nat)
    | TellExit(x: nat, d: nat)
    | ExitReqh(x: nat, d: nat)
    | ExitReph(x: nat, d: nat)

  ghost predicate Shaped(s: System) {
    && s.n > 0 && |s.roles| == s.n && |s.reqs| == s.n && |s.reps| == s.n
    && (forall x :: x in s.asked ==> x < s.n) && s.elReq <= s.asked && s.elRep.Keys <= s.asked
    && (forall p :: p in s.told ==> p.0 < s.n && p.1 < s.n)
    && s.exReq <= s.told && s.exRep <= s.told
  }

  /** A node asks once.  It reads its role before it sends, but sending polls, so
      the role may be known by the time the request leaves. */
  ghost predicate Enabled(s: System, t: Step)
    requires Shaped(s)
  {
    match t
    case Ask(x) => x < s.n && x !in s.asked
    case RoleReqh(x) => x in s.elReq
    case RoleReph(x) => x in s.elRep
    case TellExit(x, d) => x < s.n && d < s.n && d != x && s.roles[x] == Leader && (x, d) !in s.told
    case ExitReqh(x, d) => (x, d) in s.exReq
    case ExitReph(x, d) => (x, d) in s.exRep
  }

  /** The debug assertions of the three handlers that have them. */
  ghost predicate AssertionsHold(s: System, t: Step)
    requires Shaped(s) && Enabled(s, t)
  {
    match t
    case RoleReph(x) => s.elRep[x] != Unknown && Claim(s.roles[x], s.elRep[x]) == s.elRep[x]
    case ExitReqh(_, d) => s.roles[d] != Leader && s.reqs[d] == 0
    case _ => true
  }

  ghost function Apply(s: System, t: Step): System
    requires Shaped(s) && Enabled(s, t)
  {
    match t
    case Ask(x) => s.(asked := s.asked + {x}, elReq := s.elReq + {x}, sent := s.sent + 1)
    case RoleReqh(x) =>
      s.(roles := s.roles[0 := Claim(s.roles[0], RootShare(x))],
         elReq := s.elReq - {x}, elRep := s.elRep[x := Verdict(s.roles[0])], sent := s.sent + 1)
    case RoleReph(x) =>
      s.(roles := s.roles[x := Claim(s.roles[x], s.elRep[x])], elRep := s.elRep - {x})
    case TellExit(x, d) =>
      s.(told := s.told + {(x, d)}, exReq := s.exReq + {(x, d)}, sent := s.sent + 1)
    case ExitReqh(x, d) =>
      s.(roles := s.roles[d := Claim(s.roles[d], Member)], exReq := s.exReq - {(x, d)}, exRep := s.exRep + {(x, d)},
         reqs := s.reqs[d := s.reqs[d] + 1], sent := s.sent + 1)
    case ExitReph(x, d) =>
      s.(exRep := s.exRep - {(x, d)}, reps := s.reps[x := s.reps[x] + 1])
  }

  ghost predicate Init(s: System) {
    && s.n > 0 && s.roles == seq(s.n, i => Unknown)
    && s.asked == {} && s.elReq == {} && s.elRep == map[] && s.told == {} && s.exReq == {} && s.exRep == {}
    && s.reqs == seq(s.n, i => 0) && s.reps == seq(s.n, i => 0) && s.sent == 0
  }

  // ----- invariant --------------------------------------------------------

  /** x has been chosen, whether or not the news has reached it. */
  ghost predicate Elected(s: System, x: nat)
    requires Shaped(s)
  {
    x < s.n && (s.roles[x] == Leader || (x in s.elRep && s.elRep[x] == Leader))
  }

  /** Replies to exit requests that have been handled. */
  ghost function Got(s: System): set<(nat, nat)> { s.told - s.exReq - s.exRep }

  ghost predicate ElectionOk(s: System) {
    && Shaped(s)
    && (forall x, y :: Elected(s, x) && Elected(s, y) ==> x == y)
    && (forall x :: Elected(s, x) ==> s.roles[0] != Unknown && x in s.asked && x !in s.elReq)
    && (s.roles[0] == Unknown ==> forall x :: 0 <= x < s.n ==> s.roles[x] == Unknown && x !in s.elRep)
    && (s.roles[0] != Unknown ==> exists x :: Elected(s, x))
    && (forall x :: x in s.elRep ==> x !in s.elReq && s.elRep[x] != Unknown && (s.roles[x] != Unknown ==> s.roles[x] == s.elRep[x]))
    && (forall x :: x in s.asked && x !in s.elReq && x !in s.elRep ==> s.roles[x] != Unknown)
  }

  /** The exit request p was sent by the leader to somebody else; its receiver has
      counted it iff it is no longer in flight. */
  ghost predicate PairOk(s: System, p: (nat, nat))
    requires Shaped(s) && p in s.told
  {
    && p.0 != p.1 && s.roles[p.0] == Leader
    && (p in s.exReq ==> p !in s.exRep && s.reqs[p.1] == 0)
    && (p !in s.exReq ==> s.reqs[p.1] == 1 && s.roles[p.1] == Member)
  }

  ghost predicate Handled(s: System, x: nat, d: nat) { (x, d) in s.told && (x, d) !in s.exReq }

  ghost predicate DestOk(s: System, d: nat)
    requires Shaped(s) && d < s.n
  {
    s.reqs[d] > 0 ==> exists x :: Handled(s, x, d)
  }

  ghost predicate ExitOk(s: System) {
    && Shaped(s)
    && (forall p :: p in s.told ==> PairOk(s, p))
    && (forall d :: 0 <= d < s.n ==> DestOk(s, d))
  }

  ghost predicate RepsOk(s: System) {
    Shaped(s) && forall x :: 0 <= x < s.n ==> s.reps[x] == if s.roles[x] == Leader then |Got(s)| else 0
  }

  ghost predicate CountOk(s: System) {
    && Shaped(s)
    && s.sent == |s.asked| + (|s.asked| - |s.elReq|) + |s.told| + (|s.told| - |s.exReq|)
  }

  ghost predicate Inv(s: System) { ElectionOk(s) && ExitOk(s) && RepsOk(s) && CountOk(s) }

  lemma {:induction false} InvInit(s: System)
    requires Init(s)
    ensures Inv(s)
  {
  }

  lemma {:induction false} OneLeader(s: System, x: nat, y: nat)
    requires ElectionOk(s) && x < s.n && y < s.n && s.roles[x] == Leader && s.roles[y] == Leader
    ensures x == y
  {
    assert Elected(s, x) && Elected(s, y);
  }

  lemma {:induction false} Asserts(s: System, t: Step)
    requires ElectionOk(s) && ExitOk(s) && Enabled(s, t)
    ensures AssertionsHold(s, t)
  {
    if t.ExitReqh? {
      assert PairOk(s, (t.x, t.d));
      if s.roles[t.d] == Leader { OneLeader(s, t.x, t.d); }
    }
  }

  lemma {:induction false} ShapedStep(s: System, t: Step)
    requires Shaped(s) && Enabled(s, t)
    ensures Shaped(Apply(s, t))
  {
  }

  lemma {:induction false} ElectionStep(s: System, t: Step)
    requires ElectionOk(s) && ExitOk(s) && Enabled(s, t)
    ensures ElectionOk(Apply(s, t))
  {
    var s' := Apply(s, t);
    ShapedStep(s, t);
    Asserts(s, t);
    match t
    case Ask(x) =>
      forall y ensures Elected(s', y) <==> Elected(s, y) {}
    case RoleReqh(x) => RoleReqhElection(s, x);
    case RoleReph(x) =>
      forall y ensures Elected(s', y) <==> Elected(s, y) {}
    case TellExit(x, d) =>
      forall y ensures Elected(s', y) <==> Elected(s, y) {}
    case ExitReqh(x, d) => ExitReqhElection(s, x, d);
    case ExitReph(x, d) =>
      forall y ensures Elected(s', y) <==> Elected(s, y) {}
  }

  lemma {:induction false} RoleReqhElection(s: System, x: nat)
    requires ElectionOk(s) && Enabled(s, RoleReqh(x))
    ensures ElectionOk(Apply(s, RoleReqh(x)))
  {
    var s' := Apply(s, RoleReqh(x));
    ShapedStep(s, RoleReqh(x));
    assert !Elected(s, x);
    if s.roles[0] == Unknown {
      forall y ensures Elected(s', y) <==> y == x {
        assert !Elected(s, y);
      }
    } else {
      forall y ensures Elected(s', y) <==> Elected(s, y) {}
    }
  }

  lemma {:induction false} ExitReqhElection(s: System, x: nat, d: nat)
    requires ElectionOk(s) && ExitOk(s) && Enabled(s, ExitReqh(x, d))
    ensures ElectionOk(Apply(s, ExitReqh(x, d)))
  {
    var s' := Apply(s, ExitReqh(x, d));
    ShapedStep(s, ExitReqh(x, d));
    assert PairOk(s, (x, d));
    assert Elected(s, x) && x != d;
    assert !Elected(s, d);
    forall y ensures Elected(s', y) <==> Elected(s, y) {}
  }

  lemma {:induction false} PairStep(s: System, t: Step, p: (nat, nat))
    requires ElectionOk(s) && ExitOk(s) && Enabled(s, t) && p in Apply(s, t).told
    ensures Shaped(Apply(s, t)) && PairOk(Apply(s, t), p)
  {
    ShapedStep(s, t);
    Asserts(s, t);
    if p in s.told { assert PairOk(s, p); }
    match t
    case Ask(x) =>
    case RoleReqh(x) => assert p in s.told; assert Elected(s, p.0);
    case RoleReph(x) =>
    case TellExit(x, d) =>
      if p == (x, d) {
        assert DestOk(s, d);
        if s.reqs[d] > 0 {
          var y :| Handled(s, y, d);
          assert PairOk(s, (y, d));
          OneLeader(s, x, y);
        }
      }
    case ExitReqh(x, d) =>
      assert PairOk(s, (x, d));
      OneLeader(s, x, p.0);
    case ExitReph(x, d) =>
  }

  lemma {:induction false} DestStep(s: System, t: Step, d: nat)
    requires ElectionOk(s) && ExitOk(s) && Enabled(s, t) && d < s.n
    ensures Shaped(Apply(s, t)) && DestOk(Apply(s, t), d)
  {
    ShapedStep(s, t);
    var s' := Apply(s, t);
    assert DestOk(s, d);
    if t.ExitReqh? && t.d == d {
      assert Handled(s', t.x, d);
    } else if s.reqs[d] > 0 {
      var x :| Handled(s, x, d);
      assert Handled(s', x, d);
    }
  }

  lemma {:induction false} ExitStep(s: System, t: Step)
    requires ElectionOk(s) && ExitOk(s) && Enabled(s, t)
    ensures ExitOk(Apply(s, t))
  {
    ShapedStep(s, t);
    forall p | p in Apply(s, t).told ensures PairOk(Apply(s, t), p) { PairStep(s, t, p); }
    forall d | 0 <= d < s.n ensures DestOk(Apply(s, t), d) { DestStep(s, t, d); }
  }

  /** A node that becomes leader starts with nobody told. */
  lemma {:induction false} FreshLeader(s: System, t: Step, z: nat)
    requires ElectionOk(s) && ExitOk(s) && Enabled(s, t) && z < s.n
    requires s.roles[z] != Leader && Apply(s, t).roles[z] == Leader
    ensures s.told == {}
  {
    Asserts(s, t);
    if p :| p in s.told {
      assert PairOk(s, p);
      assert Elected(s, p.0);
      if t.RoleReph? {
        assert Elected(s, z);
      }
      assert false;
    }
  }

  lemma {:induction false} GotStep(s: System, t: Step)
    requires Shaped(s) && Enabled(s, t)
    requires t.ExitReph? ==> (t.x, t.d) !in s.exReq
    ensures Got(Apply(s, t)) == if t.ExitReph? then Got(s) + {(t.x, t.d)} else Got(s)
    ensures t.ExitReph? ==> (t.x, t.d) !in Got(s)
  {
  }

  /** The leader's count rises with the set of answers it has taken. */
  lemma {:induction false} RepsExitReph(s: System, t: Step, x: nat)
    requires ElectionOk(s) && ExitOk(s) && RepsOk(s) && Enabled(s, t) && x < s.n && t.ExitReph?
    ensures var s' := Apply(s, t);
            s'.reps[x] == if s'.roles[x] == Leader then |Got(s')| else 0
  {
    Asserts(s, t);
    assert PairOk(s, (t.x, t.d));
    assert s.roles[t.x] == Leader && (t.x, t.d) !in s.exReq;
    GotStep(s, t);
    var got, s' := Got(s), Apply(s, t);
    assert Got(s') == got + {(t.x, t.d)} && |got + {(t.x, t.d)}| == |got| + 1;
    assert s.reps[t.x] == |got|;
    if x != t.x {
      assert s.reps[x] == if s.roles[x] == Leader then |got| else 0;
      if s.roles[x] == Leader { OneLeader(s, x, t.x); }
    }
  }

  lemma {:induction false} RoleStays(s: System, t: Step, x: nat)
    requires Shaped(s) && Enabled(s, t) && x < s.n && s.roles[x] != Unknown
    ensures Apply(s, t).roles[x] == s.roles[x]
  {
  }

  lemma {:induction false} SameReps(s: System, t: Step)
    requires Shaped(s) && Enabled(s, t) && !t.ExitReph?
    ensures Apply(s, t).reps == s.reps
  {
  }

  lemma {:induction false} RepsOther(s: System, t: Step, x: nat)
    requires ElectionOk(s) && ExitOk(s) && RepsOk(s) && Enabled(s, t) && x < s.n && !t.ExitReph?
    ensures var s' := Apply(s, t);
            s'.reps[x] == if s'.roles[x] == Leader then |Got(s')| else 0
  {
    GotStep(s, t);
    SameReps(s, t);
    var s', got := Apply(s, t), Got(s);
    assert s.reps[x] == if s.roles[x] == Leader then |got| else 0;
    if s.roles[x] != Unknown {
      RoleStays(s, t, x);
    } else if s'.roles[x] == Leader {
      FreshLeader(s, t, x);
      assert got == {};
    }
  }

  lemma {:induction false} RepsStep(s: System, t: Step, x: nat)
    requires ElectionOk(s) && ExitOk(s) && RepsOk(s) && Enabled(s, t) && x < s.n
    ensures var s' := Apply(s, t);
            s'.reps[x] == if s'.roles[x] == Leader then |Got(s')| else 0
  {
    if t.ExitReph? { RepsExitReph(s, t, x); } else { RepsOther(s, t, x); }
  }

  lemma {:induction false} CountStep(s: System, t: Step)
    requires Shaped(s) && CountOk(s) && Enabled(s, t)
    ensures CountOk(Apply(s, t))
  {
    ShapedStep(s, t);
  }

  lemma {:induction false} InvStep(s: System, t: Step)
    requires Inv(s) && Enabled(s, t)
    ensures AssertionsHold(s, t) && Inv(Apply(s, t))
  {
    Asserts(s, t);
    ElectionStep(s, t);
    ExitStep(s, t);
    forall x | 0 <= x < s.n
      ensures Apply(s, t).reps[x] == if Apply(s, t).roles[x] == Leader then |Got(Apply(s, t))| else 0
    {
      RepsStep(s, t, x);
    }
    CountStep(s, t);
  }

  // ----- every run --------------------------------------------------------

  ghost predicate Run(s: System, ts: seq<Step>, s': System)
    decreases |ts|
  {
    Shaped(s) && if ts == [] then s' == s else Enabled(s, ts[0]) && Run(Apply(s, ts[0]), ts[1..], s')
  }

  ghost predicate Reachable(s: System) { exists s0, ts :: Init(s0) && Run(s0, ts, s) }

  lemma {:induction false} InvRun(s: System, ts: seq<Step>, s': System)
    requires Inv(s) && Run(s, ts, s')
    ensures Inv(s')
    decreases |ts|
  {
    if ts != [] {
      InvStep(s, ts[0]);
      InvRun(Apply(s, ts[0]), ts[1..], s');
    }
  }

  lemma {:induction false} ReachableInv(s: System)
    requires Reachable(s)
    ensures Inv(s)
  {
    var s0, ts :| Init(s0) && Run(s0, ts, s);
    InvInit(s0);
    InvRun(s0, ts, s);
  }

  /** No handler assertion can fail, and there is never more than one leader. */
  lemma {:induction false} ElectionSafety(s: System, t: Step, x: nat, y: nat)
    requires Reachable(s)
    ensures Shaped(s)
    ensures Enabled(s, t) ==> AssertionsHold(s, t)
    ensures x < s.n && y < s.n && s.roles[x] == Leader && s.roles[y] == Leader ==> x == y
  {
    ReachableInv(s);
    if Enabled(s, t) { InvStep(s, t); }
    if x < s.n && y < s.n && s.roles[x] == Leader && s.roles[y] == Leader { OneLeader(s, x, y); }
  }

  /** The leader has all its replies and no election message is in flight. */
  ghost predicate Completed(s: System, x: nat) {
    Shaped(s) && x < s.n && s.roles[x] == Leader && s.reps[x] == s.n - 1 && s.elReq == {} && s.elRep == map[]
  }

  ghost function Others(n: nat, x: nat): (r: set<(nat, nat)>)
  {
    set d | 0 <= d < n && d != x :: (x, d)
  }

  lemma {:induction false} OthersCount(n: nat, x: nat)
    ensures |Others(n, x)| == if x < n then n - 1 else n
  {
    if n > 0 {
      OthersCount(n - 1, x);
      if n - 1 != x {
        assert Others(n, x) == Others(n - 1, x) + {(x, n - 1)};
        assert (x, n - 1) !in Others(n - 1, x);
      } else {
        assert Others(n, x) == Others(n - 1, x);
      }
    } else {
      assert Others(0, x) == {};
    }
  }

  lemma {:induction false} SubsetOfSameSize(a: set<(nat, nat)>, b: set<(nat, nat)>)
    requires a <= b && |a| == |b|
    ensures a == b
  {
    assert |b - a| == |b| - |a|;
  }

  lemma {:induction false} ToldAreOthers(s: System, x: nat)
    requires ElectionOk(s) && ExitOk(s) && x < s.n && s.roles[x] == Leader
    ensures s.told <= Others(s.n, x)
  {
    forall p | p in s.told ensures p in Others(s.n, x) {
      assert PairOk(s, p);
      OneLeader(s, p.0, x);
      assert p == (x, p.1);
    }
  }

  /** When all replies are in, everybody has been told and no request is in flight. */
  lemma {:induction false} AllTold(n: nat, x: nat, told: set<(nat, nat)>, exReq: set<(nat, nat)>, exRep: set<(nat, nat)>)
    requires x < n && told <= Others(n, x) && exReq <= told && |told - exReq - exRep| == n - 1
    ensures told == Others(n, x) && exReq == {} && |told| == n - 1
  {
    OthersCount(n, x);
    var got := told - exReq - exRep;
    assert Others(n, x) == got + (Others(n, x) - got);
    SubsetOfSameSize(got, Others(n, x));
    assert exReq * got == {};
    assert exReq == {};
  }

  /** A completed exit has one leader, everybody else is a member, and it took two
      messages for each candidate and two for each peer of the leader: at least
      2N and at most 4N-2. */
  lemma {:induction false} CompletedExit(s: System, x: nat, y: nat)
    requires Reachable(s) && Completed(s, x)
    ensures y < s.n && y != x ==> s.roles[y] == Member
    ensures s.sent == 2 * |s.asked| + 2 * (s.n - 1)
    ensures 2 * s.n <= s.sent <= 4 * s.n - 2
  {
    ReachableInv(s);
    ToldAreOthers(s, x);
    assert s.reps[x] == |Got(s)|;
    AllTold(s.n, x, s.told, s.exReq, s.exRep);
    if y < s.n && y != x {
      assert (x, y) in Others(s.n, x);
      assert PairOk(s, (x, y));
    }
    assert Elected(s, x);
    assert s.asked != {};
    AskedCount(s);
  }

  lemma {:induction false} AskedCount(s: System)
    requires Shaped(s)
    ensures |s.asked| <= s.n
  {
    Bounded(s.asked, s.n);
  }

  lemma {:induction false} Bounded(a: set<nat>, n: nat)
    requires forall x :: x in a ==> x < n
    ensures |a| <= n
    decreases n
  {
    if n == 0 {
      assert a == {};
    } else {
      var rest := a - {n - 1};
      Bounded(rest, n - 1);
      assert a <= rest + {n - 1};
    }
  }

  /** Progress: once a node has asked and the exit is not complete, some message is
      in flight or the leader has somebody left to tell. */
  lemma {:induction false} ExitProgress(s: System) returns (t: Step)
    requires Reachable(s) && s.asked != {} && forall x :: !Completed(s, x)
    ensures Shaped(s) && Enabled(s, t) && !t.Ask?
  {
    ReachableInv(s);
    if x :| x in s.elReq {
      t := RoleReqh(x);
    } else if x :| x in s.elRep {
      t := RoleReph(x);
    } else if p :| p in s.exReq {
      t := ExitReqh(p.0, p.1);
    } else if p :| p in s.exRep {
      t := ExitReph(p.0, p.1);
    } else {
      var a :| a in s.asked;
      assert s.roles[a] != Unknown;
      var x :| Elected(s, x);
      assert s.elRep == map[];
      t := NextToTell(s, x);
    }
  }

  lemma {:induction false} NextToTell(s: System, x: nat) returns (t: Step)
    requires ElectionOk(s) && ExitOk(s) && RepsOk(s) && x < s.n && s.roles[x] == Leader && !Completed(s, x)
    requires s.elReq == {} && s.elRep == map[] && s.exReq == {} && s.exRep == {}
    ensures Enabled(s, t) && t.TellExit?
  {
    ToldAreOthers(s, x);
    OthersCount(s.n, x);
    assert Got(s) == s.told;
    assert s.reps[x] == |s.told|;
    assert s.told != Others(s.n, x);
    var p :| p in Others(s.n, x) && p !in s.told;
    t := TellExit(x, p.1);
  }
}
