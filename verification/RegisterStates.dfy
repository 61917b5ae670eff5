/** The states in which the code generator meets a statement, and where it keeps the registers there. */
module RegisterStates {
  import opened Common
  import opened CMRegisters
  import opened TargetIR
  import opened CFG
  import opened CodeBuilder
  import opened Growth
  import opened Variables
  import opened Creation
  import opened Correctness
  import opened ClusterCorrectness
  import opened WholeRuns
  import opened Definitions
  import opened SSAForm
  import opened Dominance
  import opened WellFormedness

  // ----- the states that generation visits -----

  /** Generating statement s from state st comes to a statement, s included, in state v. */
  ghost predicate Visits(c: Context, st: Builder, s: Stm, v: Builder)
    requires st.Ok() && |c.target.stkOffset| == NUM_REGS
    decreases s
  {
    v == st ||
    if IsSimple(s) then Visits(c, st.Put(GenSimple(c.target, st.OpenLine(), s)), Cont(s), v)
    else
      match s
      case ARITH(_, _, _, k) => Visits(c, TrapHead(c.target, st, s), k, v)
      case SWITCH(_, arms) => VisitsArms(c, SwitchHead(c.target, st, s), st.regs, arms, v)
      case BRANCH(_, _, a, b) =>
        var st1 := BranchHead(c.target, st, s);
        var st2 := GenStm(c.target, c.clusters, SetInsertPoint(st1, a.bb), a.body);
        || Visits(c, SetInsertPoint(st1, a.bb), a.body, v)
        || Visits(c, SetInsertPoint(st2.(regs := st1.regs), b.bb), b.body, v)
      case _ => false
  }

  /** The registers are restored before every arm. */
  ghost predicate VisitsArms(c: Context, st: Builder, saved: seq<Option<Operand>>, arms: seq<Arm>, v: Builder)
    requires st.Ok() && |c.target.stkOffset| == NUM_REGS && |saved| == NUM_REGS
    decreases arms
  {
    arms != [] &&
    var front, last := arms[..|arms| - 1], arms[|arms| - 1];
    assert last.body < last;
    var st1 := GenArms(c.target, c.clusters, st, saved, front);
    || VisitsArms(c, st, saved, front, v)
    || Visits(c, SetInsertPoint(st1.(regs := saved), last.bb), last.body, v)
  }

  /** Generating the fragment with index i comes to a statement in state v. */
  ghost predicate VisitsFrag(c: Context, st: Builder, fs: seq<Frag>, i: nat, v: Builder)
    requires st.Ok() && |c.target.stkOffset| == NUM_REGS && i < |fs|
  {
    Visits(c, SetupFrag(c.target, Gen(c, st, fs, i), fs[i], i == 0), fs[i].body.body, v)
  }

  /** Generating a cluster comes to a statement in state v. */
  ghost predicate VisitsCluster(c: Context, cl: Cluster, v: Builder)
    requires WellScoped(c, cl)
  {
    InitPrepares(c, cl);
    var (st, fs) := InitFrags(c.target, InitialBuilder(), cl.frags);
    exists i :: 0 <= i < |fs| && VisitsFrag(c, st, fs, i, v)
  }

  // ----- what is there when a statement is met stays -----

  lemma {:induction false} VisitGrows(c: Context, st: Builder, s: Stm, lo: nat, v: Builder)
    requires Ready(st, lo, NumArms(s)) && Numbered(s, lo) && JumpsKnown(s, st.frags.Keys)
    requires |c.target.stkOffset| == NUM_REGS && Visits(c, st, s, v)
    ensures BlocksGrow(v.blocks, GenStm(c.target, c.clusters, st, s).blocks)
    decreases s, 1
  {
    hide *;
    ReadyOpen(st, lo, NumArms(s));
    RegsSized(c, st, s);
    if v == st {
      GenStmCompletes(c.target, c.clusters, st, s, lo);
      CompletesOnly(st, GenStm(c.target, c.clusters, st, s), lo, NumArms(s));
    } else if IsSimple(s) {
      SimpleVisit(c, st, s, lo, v);
      VisitGrows(c, st.Put(GenSimple(c.target, st.OpenLine(), s)), Cont(s), lo, v);
    } else {
      OtherVisit(c, st, s, v);
      match s
      case ARITH(_, _, _, k) =>
        TrapVisit(c, st, s, lo);
        VisitGrows(c, TrapHead(c.target, st, s), k, lo, v);
      case SWITCH(_, arms) =>
        SwitchVisit(c, st, s, lo);
        VisitGrowsArms(c, SwitchHead(c.target, st, s), st.regs, arms, lo, v);
      case BRANCH(_, _, _, _) => VisitGrowsBranch(c, st, s, lo, v);
      case _ =>
    }
  }

  lemma RegsSized(c: Context, st: Builder, s: Stm)
    requires st.Ok() && |c.target.stkOffset| == NUM_REGS
    ensures |st.regs| == |st.OpenLine().regs| == NUM_REGS
    ensures IsSimple(s) ==> |GenSimple(c.target, st.OpenLine(), s).regs| == NUM_REGS
  {
    hide GenSimple;
  }

  lemma CompletesOnly(st: Builder, st': Builder, lo: nat, n: nat)
    requires Completes(st, st', lo, n)
    ensures BlocksGrow(st.blocks, st'.blocks)
  {}

  lemma ArmsGrow(st: Builder, st': Builder, lo: nat, n: nat)
    requires CompletesArms(st, st', lo, n)
    ensures BlocksGrow(st.blocks, st'.blocks) && st'.frags == st.frags
  {}

  lemma SimpleVisit(c: Context, st: Builder, s: Stm, lo: nat, v: Builder)
    requires IsSimple(s) && Ready(st, lo, NumArms(s)) && Numbered(s, lo) && JumpsKnown(s, st.frags.Keys)
    requires |c.target.stkOffset| == NUM_REGS && Visits(c, st, s, v) && v != st
    ensures var st1 := st.Put(GenSimple(c.target, st.OpenLine(), s));
      && Ready(st1, lo, NumArms(Cont(s))) && Numbered(Cont(s), lo) && JumpsKnown(Cont(s), st1.frags.Keys)
      && Visits(c, st1, Cont(s), v) && Cont(s) < s
      && GenStm(c.target, c.clusters, st, s) == GenStm(c.target, c.clusters, st1, Cont(s))
  {
    PutReady(st, GenSimple(c.target, st.OpenLine(), s), lo, NumArms(s));
    GenStmSimple(c.target, c.clusters, st, s);
    SimpleArms(s, lo);
    hide GenStm, GenSimple, Ready;
  }

  lemma OtherVisit(c: Context, st: Builder, s: Stm, v: Builder)
    requires st.Ok() && |c.target.stkOffset| == NUM_REGS && Visits(c, st, s, v) && v != st && !IsSimple(s)
    ensures (s.ARITH? && s.arith.TRAP? && s.k < s) || s.SWITCH? || s.BRANCH?
    ensures s.ARITH? ==> Visits(c, TrapHead(c.target, st, s), s.k, v)
    ensures s.SWITCH? ==> VisitsArms(c, SwitchHead(c.target, st, s), st.regs, s.arms, v)
    ensures s.BRANCH? ==>
      var st1 := BranchHead(c.target, st, s);
      var st2 := GenStm(c.target, c.clusters, SetInsertPoint(st1, s.onTrue.bb), s.onTrue.body);
      || Visits(c, SetInsertPoint(st1, s.onTrue.bb), s.onTrue.body, v)
      || Visits(c, SetInsertPoint(st2.(regs := st1.regs), s.onFalse.bb), s.onFalse.body, v)
  {}

  lemma TrapVisit(c: Context, st: Builder, s: Stm, lo: nat)
    requires s.ARITH? && s.arith.TRAP? && Ready(st, lo, NumArms(s)) && Numbered(s, lo) && JumpsKnown(s, st.frags.Keys)
    requires |c.target.stkOffset| == NUM_REGS
    ensures var st1 := TrapHead(c.target, st, s);
      && Ready(st1, lo, NumArms(s.k)) && Numbered(s.k, lo) && JumpsKnown(s.k, st1.frags.Keys)
      && GenStm(c.target, c.clusters, st, s) == GenStm(c.target, c.clusters, st1, s.k)
  {
    TrapHeadReady(c.target, st, s, lo, NumArms(s));
    hide TrapHead, Ready;
  }

  lemma SwitchVisit(c: Context, st: Builder, s: Stm, lo: nat)
    requires s.SWITCH? && Ready(st, lo, NumArms(s)) && Numbered(s, lo) && JumpsKnown(s, st.frags.Keys)
    requires |c.target.stkOffset| == NUM_REGS
    ensures var st1 := SwitchHead(c.target, st, s);
      && Linked(st1) && Untouched(st1, lo, lo + NumArmsOf(s.arms)) && SameShape(st1.regs, st.regs)
      && NumberedArms(s.arms, lo) && JumpsKnownArms(s.arms, st1.frags.Keys)
      && GenStm(c.target, c.clusters, st, s) == GenArms(c.target, c.clusters, st1, st.regs, s.arms)
  {
    SwitchHeadGrows(c.target, st, s, lo, NumArms(s));
    hide SwitchHead, Ready;
  }

  lemma {:induction false} VisitGrowsArms(c: Context, st: Builder, saved: seq<Option<Operand>>, arms: seq<Arm>,
                                          lo: nat, v: Builder)
    requires st.Ok() && Linked(st) && |c.target.stkOffset| == NUM_REGS && SameShape(st.regs, saved)
    requires NumberedArms(arms, lo) && JumpsKnownArms(arms, st.frags.Keys) && Untouched(st, lo, lo + NumArmsOf(arms))
    requires |saved| == NUM_REGS && VisitsArms(c, st, saved, arms, v)
    ensures BlocksGrow(v.blocks, GenArms(c.target, c.clusters, st, saved, arms).blocks)
    decreases arms, 0
  {
    hide *;
    ArmsVisitParts(c, st, saved, arms, lo, v);
    var front, last := arms[..|arms| - 1], arms[|arms| - 1];
    var n, k := NumArmsOf(front), NumArms(last.body) + 1;
    UntouchedPart(st, lo, lo + n, lo + n + k);
    GenArmsCompletes(c.target, c.clusters, st, saved, front, lo);
    var st1 := GenArms(c.target, c.clusters, st, saved, front);
    ArmsKeep(st, st1, lo, n, lo + n, lo + n + k);
    ShapeTrans(st, st1, saved);
    GenArmCompletes(c.target, c.clusters, st1, saved, last, lo + n);
    var st' := GenArms(c.target, c.clusters, st, saved, arms);
    ArmsGrow(st1, st', lo + n, k);
    if VisitsArms(c, st, saved, front, v) {
      VisitGrowsArms(c, st, saved, front, lo, v);
      BlocksGrowTrans(v.blocks, st1.blocks, st'.blocks);
    } else {
      ArmReady(st1, saved, last.bb, lo + n, NumArms(last.body));
      VisitGrows(c, SetInsertPoint(st1.(regs := saved), last.bb), last.body, lo + n + 1, v);
    }
  }

  lemma ArmsVisitParts(c: Context, st: Builder, saved: seq<Option<Operand>>, arms: seq<Arm>, lo: nat, v: Builder)
    requires st.Ok() && |c.target.stkOffset| == NUM_REGS && |saved| == NUM_REGS && VisitsArms(c, st, saved, arms, v)
    requires NumberedArms(arms, lo) && JumpsKnownArms(arms, st.frags.Keys)
    ensures arms != []
    ensures var front, last := arms[..|arms| - 1], arms[|arms| - 1];
      var st1 := GenArms(c.target, c.clusters, st, saved, front);
      && last.body < last && front < arms && NumArmsOf(arms) == NumArmsOf(front) + (NumArms(last.body) + 1)
      && NumberedArms(front, lo) && JumpsKnownArms(front, st.frags.Keys) && JumpsKnown(last.body, st.frags.Keys)
      && last.bb == Some(lo + NumArmsOf(front)) && Numbered(last.body, lo + NumArmsOf(front) + 1)
      && (VisitsArms(c, st, saved, front, v) || Visits(c, SetInsertPoint(st1.(regs := saved), last.bb), last.body, v))
      && GenArms(c.target, c.clusters, st, saved, arms)
           == GenStm(c.target, c.clusters, SetInsertPoint(st1.(regs := saved), last.bb), last.body)
  {
    var last := arms[|arms| - 1];
    assert last.body < last;
  }

  lemma {:induction false} VisitGrowsBranch(c: Context, st: Builder, s: Stm, lo: nat, v: Builder)
    requires s.BRANCH? && Ready(st, lo, NumArms(s)) && Numbered(s, lo) && JumpsKnown(s, st.frags.Keys)
    requires |c.target.stkOffset| == NUM_REGS && st.Ok()
    requires var st1 := BranchHead(c.target, st, s);
      var st2 := GenStm(c.target, c.clusters, SetInsertPoint(st1, s.onTrue.bb), s.onTrue.body);
      || Visits(c, SetInsertPoint(st1, s.onTrue.bb), s.onTrue.body, v)
      || Visits(c, SetInsertPoint(st2.(regs := st1.regs), s.onFalse.bb), s.onFalse.body, v)
    ensures BlocksGrow(v.blocks, GenStm(c.target, c.clusters, st, s).blocks)
    decreases s, 0
  {
    hide *;
    var a, b := s.onTrue, s.onFalse;
    var n, k := NumArms(a.body) + 1, NumArms(b.body) + 1;
    BranchArms(s, lo, st.frags.Keys);
    BranchHeadGrows(c.target, st, s, lo, n + k);
    var st1 := BranchHead(c.target, st, s);
    UntouchedPart(st1, lo, lo + n, lo + n + k);
    assert st1.(regs := st1.regs) == st1;
    GenArmCompletes(c.target, c.clusters, st1, st1.regs, a, lo);
    var st2 := GenStm(c.target, c.clusters, SetInsertPoint(st1, a.bb), a.body);
    ArmsKeep(st1, st2, lo, n, lo + n, lo + n + k);
    GenArmCompletes(c.target, c.clusters, st2, st1.regs, b, lo + n);
    GenStmBranch(c.target, c.clusters, st, s);
    var st' := GenStm(c.target, c.clusters, st, s);
    ArmsGrow(st2, st', lo + n, k);
    SameLength(st1.regs, st1.regs);
    if Visits(c, SetInsertPoint(st1, a.bb), a.body, v) {
      ArmReady(st1, st1.regs, a.bb, lo, NumArms(a.body));
      VisitGrows(c, SetInsertPoint(st1, a.bb), a.body, lo + 1, v);
      BlocksGrowTrans(v.blocks, st2.blocks, st'.blocks);
    } else {
      ArmReady(st2, st1.regs, b.bb, lo + n, NumArms(b.body));
      VisitGrows(c, SetInsertPoint(st2.(regs := st1.regs), b.bb), b.body, lo + n + 1, v);
    }
  }

  lemma BranchArms(s: Stm, lo: nat, labels: set<LVar>)
    requires s.BRANCH? && Numbered(s, lo) && JumpsKnown(s, labels)
    ensures var a, b := s.onTrue, s.onFalse; var n := NumArms(a.body) + 1;
      && a < s && b < s && NumArms(s) == n + (NumArms(b.body) + 1) && JumpsKnown(a.body, labels)
      && JumpsKnown(b.body, labels)
      && a.bb == Some(lo) && b.bb == Some(lo + n) && Numbered(a.body, lo + 1) && Numbered(b.body, lo + n + 1)
  {}

  // ----- registers are defined where a statement is met -----

  /** The registers have values in the right places, and the names they use are those that ledger gv knows to
      be available; ledger g knows as much. */
  ghost predicate Held(c: Context, v: Builder, gv: Ledger, g: Ledger) {
    && v.Ok() && |gv.av| == |v.blocks| && RegsOk(c.target, v.regs, Out(v.blocks, gv.av, v.cur))
    && v.cur < |g.av| && g.av[v.cur] == gv.av[v.cur] && v.cur !in g.idle
  }

  lemma HeldStart(c: Context, st: Builder, scope: set<LVar>, g: Ledger, g': Ledger, lo: nat, n: nat)
    requires Inv(c, st, g) && Live(c, st, g, scope) && Leaves(g, g', lo, n) && Owned(g, lo, n)
    ensures Held(c, st, g, g')
  {
    LiveRegs(c, st, g, scope);
    hide RegsOk, Certificate, UniqueNames, LineOk;
  }

  ghost predicate AllIdle(g: Ledger, lo: nat, n: nat) { forall b :: lo <= b < lo + n ==> b in g.idle }

  lemma HeldLater(c: Context, v: Builder, gv: Ledger, g: Ledger, g': Ledger, lo: nat, n: nat)
    requires Held(c, v, gv, g) && Leaves(g, g', lo, n) && AllIdle(g, lo, n)
    ensures Held(c, v, gv, g')
  {
    hide RegsOk;
  }

  lemma ArmIdle(arm: Arm, lo: nat, g: Ledger, s: set<nat>)
    requires ArmOk(arm, lo, g, s)
    ensures AllIdle(g, lo, NumArms(arm.body) + 1)
  {}

  lemma {:induction false} StmVisit(c: Context, st: Builder, s: Stm, scope: set<LVar>, lo: nat, g: Ledger, v: Builder)
    returns (gv: Ledger, g': Ledger)
    requires Inv(c, st, g) && Live(c, st, g, scope) && st.Ok() && |c.target.stkOffset| == NUM_REGS
    requires Numbered(s, lo) && Owned(g, lo, NumArms(s)) && StmOk(c, s, scope, st.vMap) && Visits(c, st, s, v)
    ensures Inv(c, GenStm(c.target, c.clusters, st, s), g') && Leaves(g, g', lo, NumArms(s)) && Held(c, v, gv, g')
    decreases s, 1
  {
    hide *;
    if v == st {
      gv := g;
      g' := StmInv(c, st, s, scope, lo, g);
      HeldStart(c, st, scope, g, g', lo, NumArms(s));
    } else if IsSimple(s) {
      var st1 := SimpleStep(c, st, s, scope, lo, g);
      VisitsCont(c, st, s, v);
      gv, g' := StmVisit(c, st1, Cont(s), scope + Bound(s), lo, g, v);
    } else {
      OtherVisit(c, st, s, v);
      match s
      case ARITH(_, _, _, k) =>
        TrapParts(c, st, s, scope, lo);
        var g1 := TrapHeadInv(c, st, s, scope, g);
        OwnedAfter(g, g1, lo, NumArms(s));
        gv, g' := StmVisit(c, TrapHead(c.target, st, s), k, scope + {s.x}, lo, g1, v);
        LeavesNone(g, g1, g', lo, NumArms(s));
      case SWITCH(_, arms) =>
        SwitchParts(c, st, s, scope, lo);
        var g1, names := SwitchHeadInv(c, st, s, scope, lo, g);
        gv, g' := ArmsVisit(c, SwitchHead(c.target, st, s), st.regs, arms, scope, lo, g1, names, v);
        LeavesTwice(g, g1, g', lo, NumArms(s));
      case BRANCH(_, _, _, _) => gv, g' := BranchVisit(c, st, s, scope, lo, g, v);
      case _ =>
    }
  }

  lemma VisitsCont(c: Context, st: Builder, s: Stm, v: Builder)
    requires st.Ok() && |c.target.stkOffset| == NUM_REGS && IsSimple(s) && Visits(c, st, s, v) && v != st
    ensures |GenSimple(c.target, st.OpenLine(), s).regs| == NUM_REGS
    ensures Visits(c, st.Put(GenSimple(c.target, st.OpenLine(), s)), Cont(s), v)
  {
    hide GenSimple;
  }

  lemma {:induction false} ArmVisit(c: Context, st: Builder, saved: seq<Option<Operand>>, arm: Arm, scope: set<LVar>,
                                    lo: nat, g: Ledger, s: set<nat>, v: Builder) returns (gv: Ledger, g': Ledger)
    requires Inv(c, st, g) && st.Ok() && |c.target.stkOffset| == NUM_REGS && |saved| == NUM_REGS
    requires ArmOk(arm, lo, g, s) && ArmEnv(c, st.vMap, saved, scope, s) && StmOk(c, arm.body, scope, st.vMap)
    requires Visits(c, SetInsertPoint(st.(regs := saved), arm.bb), arm.body, v)
    ensures Inv(c, GenStm(c.target, c.clusters, SetInsertPoint(st.(regs := saved), arm.bb), arm.body), g')
    ensures Leaves(g, g', lo, NumArms(arm.body) + 1) && Held(c, v, gv, g')
    decreases arm
  {
    hide GenStm, Inv, StmOk, Numbered, NumArms, Live, RegsOk, VarsOk, Visits, Held;
    EnterInv(c, st, g, saved, lo, scope);
    var g1 := g.(idle := g.idle - {lo});
    gv, g' := StmVisit(c, SetInsertPoint(st.(regs := saved), arm.bb), arm.body, scope, lo + 1, g1, v);
  }

  lemma {:induction false} ArmsVisit(c: Context, st: Builder, saved: seq<Option<Operand>>, arms: seq<Arm>,
                                     scope: set<LVar>, lo: nat, g: Ledger, s: set<nat>, v: Builder)
    returns (gv: Ledger, g': Ledger)
    requires Inv(c, st, g) && st.Ok() && |c.target.stkOffset| == NUM_REGS && |saved| == NUM_REGS
    requires ArmsOk(arms, lo, g, s) && ArmEnv(c, st.vMap, saved, scope, s) && ArmsStmOk(c, arms, scope, st.vMap)
    requires VisitsArms(c, st, saved, arms, v)
    ensures Inv(c, GenArms(c.target, c.clusters, st, saved, arms), g')
    ensures Leaves(g, g', lo, NumArmsOf(arms)) && Held(c, v, gv, g')
    decreases arms
  {
    hide *;
    ArmsUnfold(c, st, saved, arms, lo, g, s);
    VisitsArmsParts(c, st, saved, arms, v);
    var front, last := arms[..|arms| - 1], arms[|arms| - 1];
    var n := NumArmsOf(front);
    ArmsStmParts(c, arms, scope, st.vMap);
    var st1 := GenArms(c.target, c.clusters, st, saved, front);
    var g1: Ledger;
    if VisitsArms(c, st, saved, front, v) {
      gv, g1 := ArmsVisit(c, st, saved, front, scope, lo, g, s, v);
      LaterArm(c, st, st1, saved, front, last, scope, lo, g, g1, s);
      g' := ArmInv(c, st1, saved, last, scope, lo + n, g1, s);
      ArmIdle(last, lo + n, g1, s);
      HeldLater(c, v, gv, g1, g', lo + n, NumArms(last.body) + 1);
    } else {
      g1 := ArmsInv(c, st, saved, front, scope, lo, g, s);
      LaterArm(c, st, st1, saved, front, last, scope, lo, g, g1, s);
      gv, g' := ArmVisit(c, st1, saved, last, scope, lo + n, g1, s, v);
    }
    LeavesTrans(g, g1, g', lo, n, NumArms(last.body) + 1);
  }

  lemma VisitsArmsParts(c: Context, st: Builder, saved: seq<Option<Operand>>, arms: seq<Arm>, v: Builder)
    requires st.Ok() && |c.target.stkOffset| == NUM_REGS && |saved| == NUM_REGS && VisitsArms(c, st, saved, arms, v)
    ensures arms != []
    ensures var front, last := arms[..|arms| - 1], arms[|arms| - 1];
      var st1 := GenArms(c.target, c.clusters, st, saved, front);
      && last.body < last
      && (VisitsArms(c, st, saved, front, v) || Visits(c, SetInsertPoint(st1.(regs := saved), last.bb), last.body, v))
  {
    var last := arms[|arms| - 1];
    assert last.body < last;
  }

  lemma {:induction false} BranchVisit(c: Context, st: Builder, s: Stm, scope: set<LVar>, lo: nat, g: Ledger,
                                       v: Builder)
    returns (gv: Ledger, g': Ledger)
    requires s.BRANCH? && Inv(c, st, g) && Live(c, st, g, scope) && st.Ok() && |c.target.stkOffset| == NUM_REGS
    requires Numbered(s, lo) && Owned(g, lo, NumArms(s)) && StmOk(c, s, scope, st.vMap)
    requires var st1 := BranchHead(c.target, st, s);
      var st2 := GenStm(c.target, c.clusters, SetInsertPoint(st1, s.onTrue.bb), s.onTrue.body);
      || Visits(c, SetInsertPoint(st1, s.onTrue.bb), s.onTrue.body, v)
      || Visits(c, SetInsertPoint(st2.(regs := st1.regs), s.onFalse.bb), s.onFalse.body, v)
    ensures Inv(c, GenStm(c.target, c.clusters, st, s), g') && Leaves(g, g', lo, NumArms(s)) && Held(c, v, gv, g')
    decreases s, 0
  {
    hide *;
    var st1 := BranchHead(c.target, st, s);
    var a, b := s.onTrue, s.onFalse;
    BranchStmParts(c, s, scope, st.vMap, lo);
    var g1, names := BranchHeadInv(c, st, s, scope, lo, g);
    GenStmBranch(c.target, c.clusters, st, s);
    assert st1.(regs := st1.regs) == st1;
    var n, k := NumArms(a.body) + 1, NumArms(b.body) + 1;
    var st2 := GenStm(c.target, c.clusters, SetInsertPoint(st1, a.bb), a.body);
    EnvSized(c, st1.vMap, st1.regs, scope, names);
    var g2: Ledger;
    if Visits(c, SetInsertPoint(st1, a.bb), a.body, v) {
      gv, g2 := ArmVisit(c, st1, st1.regs, a, scope, lo, g1, names, v);
      NextArm(c, st1, a, b, scope, lo, g1, g2, names);
      g' := ArmInv(c, st2, st1.regs, b, scope, lo + n, g2, names);
      ArmIdle(b, lo + n, g2, names);
      HeldLater(c, v, gv, g2, g', lo + n, k);
    } else {
      g2 := ArmInv(c, st1, st1.regs, a, scope, lo, g1, names);
      NextArm(c, st1, a, b, scope, lo, g1, g2, names);
      gv, g' := ArmVisit(c, st2, st1.regs, b, scope, lo + n, g2, names, v);
    }
    LeavesTrans(g1, g2, g', lo, n, k);
    LeavesTwice(g, g1, g', lo, NumArms(s));
  }

  lemma EnvSized(c: Context, vMap: map<LVar, Operand>, regs: seq<Option<Operand>>, scope: set<LVar>, s: set<nat>)
    requires ArmEnv(c, vMap, regs, scope, s)
    ensures |regs| == NUM_REGS
  {}

  // ----- fragments and clusters -----

  ghost predicate LedgerAt(c: Context, st: Builder, fs: seq<Frag>, i: nat, g: Ledger)
    requires st.Ok() && |c.target.stkOffset| == NUM_REGS && i <= |fs|
  {
    Inv(c, Gen(c, st, fs, i), g) && FragsFree(fs, i, g) && 0 in g.unlinked
  }

  lemma FragVisit(c: Context, st: Builder, fs0: seq<Frag>, fs: seq<Frag>, i: nat, g: Ledger, v: Builder)
    returns (gv: Ledger, g': Ledger)
    requires Pending(c, st, fs0, fs, i) && i < |fs| && (i == 0 || fs[i].kind == INTERNAL) && WellScopedFrag(c, fs0[i])
    requires Inv(c, st, g) && FragsFree(fs, i, g) && 0 in g.unlinked
    requires Visits(c, SetupFrag(c.target, st, fs[i], i == 0), fs[i].body.body, v)
    ensures var st' := GenFrag(c.target, c.clusters, st, fs[i], i == 0);
      && Inv(c, st', g') && FragsFree(fs, i + 1, g') && 0 in g'.unlinked
      && Held(c, v, gv, g') && BlocksGrow(v.blocks, st'.blocks)
  {
    hide *;
    var f := fs[i];
    InOrderOk(c, st, fs0, fs, i);
    var st1 := SetupFrag(c.target, st, f, i == 0);
    SetupInv(c, st, fs0, fs, i, g);
    FragBodyOk(c, st, fs0, fs, i);
    BodyStart(c, st, fs0, fs, i);
    FragOwned(fs, i, g);
    gv, g' := StmVisit(c, st1, f.body.body, Elems(f.params), ArmBB(f.body) + 1, g, v);
    StillFree(fs, i, g, g');
    BodyReady(c, st, fs0, fs, i);
    VisitGrows(c, st1, f.body.body, ArmBB(f.body) + 1, v);
  }

  /** Later fragments do not touch what was available. */
  lemma {:induction false} HeldThrough(c: Context, cl: Cluster, st: Builder, fs: seq<Frag>, i: nat, j: nat,
                                       v: Builder, gv: Ledger, g: Ledger) returns (g': Ledger)
    requires Prepared(c, cl, st, fs) && i <= j <= |fs| && LedgerAt(c, st, fs, i, g) && Held(c, v, gv, g)
    ensures LedgerAt(c, st, fs, j, g') && Held(c, v, gv, g')
    decreases j
  {
    hide *;
    g' := g;
    if i < j {
      PreparedOk(c, cl, st, fs);
      var g1 := HeldThrough(c, cl, st, fs, i, j - 1, v, gv, g);
      LedgerParts(c, st, fs, j - 1, g1);
      GenUnfold(c, st, fs, j);
      GenPending(c, cl, st, fs, j - 1);
      KindsKept(c, cl, st, fs, j - 1);
      g' := FragInv(c, Gen(c, st, fs, j - 1), cl.frags, fs, j - 1, g1);
      LedgerParts(c, st, fs, j, g');
      FragOwned(fs, j - 1, g1);
      OwnedIdle(g1, ArmBB(fs[j - 1].body) + 1, NumArms(fs[j - 1].body.body));
      HeldLater(c, v, gv, g1, g', ArmBB(fs[j - 1].body) + 1, NumArms(fs[j - 1].body.body));
    }
  }

  lemma LedgerParts(c: Context, st: Builder, fs: seq<Frag>, i: nat, g: Ledger)
    requires st.Ok() && |c.target.stkOffset| == NUM_REGS && i <= |fs|
    ensures LedgerAt(c, st, fs, i, g) <==> Inv(c, Gen(c, st, fs, i), g) && FragsFree(fs, i, g) && 0 in g.unlinked
  {}

  lemma OwnedIdle(g: Ledger, lo: nat, n: nat)
    requires Owned(g, lo, n)
    ensures AllIdle(g, lo, n)
  {}

  lemma {:induction false} LedgerBefore(c: Context, cl: Cluster, st: Builder, fs: seq<Frag>, i: nat, g0: Ledger)
    returns (g: Ledger)
    requires Prepared(c, cl, st, fs) && i <= |fs| && Inv(c, st, g0) && FragsFree(fs, 0, g0) && 0 in g0.unlinked
    ensures st.Ok() && LedgerAt(c, st, fs, i, g)
  {
    PreparedOk(c, cl, st, fs);
    g := AllGenerated(c, cl, st, fs, i, g0);
    hide Inv, FragsFree, Sealed, Prepared, Gen;
  }

  /** In the finished function, on every path from the entry to the block of state v, the names that v's
      registers use are defined before the point where v was met. */
  ghost predicate DefinedAt(t: TargetInfo, bs: seq<Block>, v: Builder) {
    && v.Ok() && v.cur < |bs| && v.blocks[v.cur].body <= bs[v.cur].body
    && forall path :: IsPath(bs, path) && path[|path| - 1] == v.cur ==>
         RegsOk(t, v.regs, NamesOn(bs, path[..|path| - 1]) + PhiDsts(bs[v.cur].phis) + Dsts(v.blocks[v.cur].body))
  }

  lemma HeldDefined(c: Context, st: Builder, g: Ledger, v: Builder, gv: Ledger)
    requires Inv(c, st, g) && 0 in g.unlinked && Held(c, v, gv, g) && BlocksGrow(v.blocks, st.blocks)
    ensures DefinedAt(c.target, st.blocks, v)
  {
    var bs, b := st.blocks, v.cur;
    assert BlockGrows(v.blocks[b], bs[b]);
    assert PhiDsts(v.blocks[b].phis) == PhiDsts(bs[b].phis);
    forall path | IsPath(bs, path) && path[|path| - 1] == b
      ensures RegsOk(c.target, v.regs,
                     NamesOn(bs, path[..|path| - 1]) + PhiDsts(bs[b].phis) + Dsts(v.blocks[b].body))
    {
      CertifiedOnPath(bs, g.av, path);
      RegsOkMore(c.target, v.regs, Out(v.blocks, gv.av, b),
                 NamesOn(bs, path[..|path| - 1]) + PhiDsts(bs[b].phis) + Dsts(v.blocks[b].body));
    }
  }

  lemma RegsOkMore(t: TargetInfo, regs: seq<Option<Operand>>, names: set<nat>, more: set<nat>)
    requires RegsOk(t, regs, names) && names <= more
    ensures RegsOk(t, regs, more)
  {}

  /** Exactly the stack registers are without a value. */
  ghost predicate InPlace(t: TargetInfo, regs: seq<Option<Operand>>)
    requires |t.stkOffset| == NUM_REGS
  {
    |regs| == NUM_REGS && forall r: RegId :: regs[r].None? <==> !t.IsMachineReg(r)
  }

  lemma HeldRegs(c: Context, v: Builder, gv: Ledger, g: Ledger)
    requires Held(c, v, gv, g)
    ensures v.Ok() && |c.target.stkOffset| == NUM_REGS && InPlace(c.target, v.regs)
  {}

  lemma PreparedVisit(c: Context, cl: Cluster, st: Builder, fs: seq<Frag>, i: nat, g0: Ledger, v: Builder)
    requires Prepared(c, cl, st, fs) && st.Ok() && |c.target.stkOffset| == NUM_REGS
    requires Inv(c, st, g0) && FragsFree(fs, 0, g0) && 0 in g0.unlinked
    requires i < |fs| && VisitsFrag(c, st, fs, i, v)
    ensures v.Ok() && InPlace(c.target, v.regs) && DefinedAt(c.target, Gen(c, st, fs, |fs|).blocks, v)
  {
    assert Visits(c, SetupFrag(c.target, Gen(c, st, fs, i), fs[i], i == 0), fs[i].body.body, v);
    hide *;
    PreparedOk(c, cl, st, fs);
    var g1 := LedgerBefore(c, cl, st, fs, i, g0);
    LedgerParts(c, st, fs, i, g1);
    GenPending(c, cl, st, fs, i);
    KindsKept(c, cl, st, fs, i);
    GenUnfold(c, st, fs, i + 1);
    var gv, g2 := FragVisit(c, Gen(c, st, fs, i), cl.frags, fs, i, g1, v);
    LedgerParts(c, st, fs, i + 1, g2);
    var g := HeldThrough(c, cl, st, fs, i + 1, |fs|, v, gv, g2);
    LedgerParts(c, st, fs, |fs|, g);
    GenIncluded(c, cl, st, fs, i + 1, |fs|);
    BlocksGrowTrans(v.blocks, Gen(c, st, fs, i + 1).blocks, Gen(c, st, fs, |fs|).blocks);
    HeldDefined(c, Gen(c, st, fs, |fs|), g, v, gv);
    HeldRegs(c, v, gv, g);
  }

  lemma KeepsPlaces(t: TargetInfo, v: Builder)
    requires v.Ok() && |t.stkOffset| == NUM_REGS && InPlace(t, v.regs)
    ensures forall l :: Continues(v.OpenLine(), l) ==> InPlace(t, l.regs)
  {}

  /** Wherever generation meets a statement, and all along the statement's own code, exactly the stack registers
      are without a value; where the statement is met, the values of the others are defined. */
  lemma ClusterVisits(c: Context, cl: Cluster, v: Builder)
    requires WellScoped(c, cl) && VisitsCluster(c, cl, v)
    ensures v.Ok() && |c.target.stkOffset| == NUM_REGS && InPlace(c.target, v.regs)
    ensures forall l :: Continues(v.OpenLine(), l) ==> InPlace(c.target, l.regs)
    ensures DefinedAt(c.target, GenCluster(c.target, c.clusters, cl).blocks, v)
  {
    var (st, fs) := InitFrags(c.target, InitialBuilder(), cl.frags);
    InitPrepares(c, cl);
    PreparedOk(c, cl, st, fs);
    var i :| 0 <= i < |fs| && VisitsFrag(c, st, fs, i, v);
    FirstInv(c, cl);
    assert 0 in FirstLedger(st, fs).unlinked;
    assert GenCluster(c.target, c.clusters, cl) == Gen(c, st, fs, |fs|);
    hide *;
    PreparedVisit(c, cl, st, fs, i, FirstLedger(st, fs), v);
    KeepsPlaces(c.target, v);
  }
}
