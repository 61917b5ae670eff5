/** The value map only gains bindings, and only of variables the statement binds. */
module Variables {
  import opened Common
  import opened CMRegisters
  import opened TargetIR
  import opened CFG
  import opened CodeBuilder
  import opened Simulation

  ghost predicate VarsGrow(v: map<LVar, Operand>, v': map<LVar, Operand>, bound: set<LVar>) {
    && (forall x :: x in v ==> x in v' && v'[x] == v[x])
    && v'.Keys <= v.Keys + bound
  }

  lemma VarsGrowTrans(a: map<LVar, Operand>, b: map<LVar, Operand>, c: map<LVar, Operand>, s: set<LVar>, s': set<LVar>)
    requires VarsGrow(a, b, s) && VarsGrow(b, c, s')
    ensures VarsGrow(a, c, s + s')
  {}

  lemma {:induction false} GCRegsVars(t: TargetInfo, l: Line, call: Operand, n: nat)
    requires |l.regs| == NUM_REGS && |t.stkOffset| == NUM_REGS && n <= NUM_REGS
    ensures GenGCRegs(t, l, call, n).vMap == l.vMap
  {
    if n > 0 { GCRegsVars(t, l, call, n - 1); }
  }

  lemma {:induction false} GCRootsVars(t: TargetInfo, l: Line, call: Operand, xs: seq<LVar>, n: nat)
    requires |l.regs| == NUM_REGS && |t.stkOffset| == NUM_REGS && n <= |xs|
    ensures VarsGrow(l.vMap, GenGCRoots(t, l, call, xs, n).vMap, Elems(xs))
  {
    if n > 0 {
      GCRootsVars(t, l, call, xs, n - 1);
      assert xs[n - 1] in xs;
    }
  }

  lemma SetterVars(t: TargetInfo, l: Line, op: SetterOp, os: seq<Operand>)
    requires SetterArity(op, |os|) && |l.regs| == NUM_REGS && |t.stkOffset| == NUM_REGS
    ensures GenSetter(t, l, op, os).vMap == l.vMap
  {}

  lemma SimpleVars(t: TargetInfo, l: Line, s: Stm)
    requires IsSimple(s) && |l.regs| == NUM_REGS && |t.stkOffset| == NUM_REGS
    ensures VarsGrow(l.vMap, GenSimple(t, l, s).vMap, Bound(s))
  {
    match s
    case LET(_, _, _) =>
    case ALLOC(op, args, _, _) =>
      var (l1, os) := GenExps(t, l, args);
      AllocKeeps(t, l1, op, os);
    case ARITH(_, _, _, _) =>
    case SETTER(op, args, _) =>
      var (l1, os) := GenExps(t, l, args);
      SetterVars(t, l1, op, os);
    case CALLGC(roots, xs, _) =>
      var (l1, os) := GenExps(t, l, roots);
      var (l2, fn) := Emit(l1, LoadSlot(t.callGCOffset), []);
      var (l3, call) := Emit(l2, CallGC, [fn] + (CreateArgs(t, l.regs, STD_FUN) + os));
      GCRegsVars(t, l3, call, NUM_REGS);
      GCRootsVars(t, GenGCRegs(t, l3, call, NUM_REGS), call, xs, |xs|);
  }

  lemma SimpleBinders(s: Stm)
    requires IsSimple(s)
    ensures Binders(s) == Bound(s) + Binders(Cont(s))
  {}

  lemma {:induction false} GenStmVars(t: TargetInfo, clusters: map<LVar, FragKind>, st: Builder, s: Stm)
    requires st.Ok() && |t.stkOffset| == NUM_REGS
    ensures VarsGrow(st.vMap, GenStm(t, clusters, st, s).vMap, Binders(s))
    decreases s
  {
    var l := st.OpenLine();
    if IsSimple(s) {
      hide GenStm, GenSimple, Binders, VarsGrow;
      GenStmSimple(t, clusters, st, s);
      SimpleVars(t, l, s);
      SimpleBinders(s);
      var st1 := st.Put(GenSimple(t, l, s));
      GenStmVars(t, clusters, st1, Cont(s));
      VarsGrowTrans(st.vMap, st1.vMap, GenStm(t, clusters, st1, Cont(s)).vMap, Bound(s), Binders(Cont(s)));
    } else {
      match s
      case ARITH(_, _, x, k) =>
        TrapHeadVars(t, st, s);
        hide VarsGrow, TrapHead;
        GenStmVars(t, clusters, TrapHead(t, st, s), k);
        VarsGrowTrans(st.vMap, TrapHead(t, st, s).vMap, GenStm(t, clusters, TrapHead(t, st, s), k).vMap, {x},
          Binders(k));
      case SWITCH(_, arms) =>
        hide VarsGrow;
        GenArmsVars(t, clusters, SwitchHead(t, st, s), st.regs, arms);
      case BRANCH(_, _, _, _) => BranchVars(t, clusters, st, s);
      case _ =>
    }
  }

  lemma {:induction false} BranchVars(t: TargetInfo, clusters: map<LVar, FragKind>, st: Builder, s: Stm)
    requires s.BRANCH? && st.Ok() && |t.stkOffset| == NUM_REGS
    ensures VarsGrow(st.vMap, GenStm(t, clusters, st, s).vMap, Binders(s))
    decreases s, 0
  {
    hide VarsGrow;
    var a, b := s.onTrue, s.onFalse;
    var st1 := SetInsertPoint(BranchHead(t, st, s), a.bb);
    var st2 := GenStm(t, clusters, st1, a.body);
    var st3 := SetInsertPoint(st2.(regs := BranchHead(t, st, s).regs), b.bb);
    assert GenStm(t, clusters, st, s) == GenStm(t, clusters, st3, b.body);
    hide GenStm;
    GenStmVars(t, clusters, st1, a.body);
    GenStmVars(t, clusters, st3, b.body);
    VarsGrowTrans(st.vMap, st2.vMap, GenStm(t, clusters, st3, b.body).vMap, Binders(a.body), Binders(b.body));
  }

  lemma TrapHeadVars(t: TargetInfo, st: Builder, s: Stm)
    requires s.ARITH? && s.arith.TRAP? && st.Ok() && |t.stkOffset| == NUM_REGS
    ensures VarsGrow(st.vMap, TrapHead(t, st, s).vMap, {s.x})
  {}

  lemma {:induction false} GenArmsVars(t: TargetInfo, clusters: map<LVar, FragKind>, st: Builder,
                                       saved: seq<Option<Operand>>, arms: seq<Arm>)
    requires st.Ok() && |t.stkOffset| == NUM_REGS && |saved| == NUM_REGS
    ensures VarsGrow(st.vMap, GenArms(t, clusters, st, saved, arms).vMap, ArmBinders(arms))
    decreases arms
  {
    if arms != [] {
      var front, last := arms[..|arms| - 1], arms[|arms| - 1];
      assert last.body < last;
      GenArmsVars(t, clusters, st, saved, front);
      var st1 := GenArms(t, clusters, st, saved, front);
      var st2 := SetInsertPoint(st1.(regs := saved), last.bb);
      GenStmVars(t, clusters, st2, last.body);
      VarsGrowTrans(st.vMap, st1.vMap, GenStm(t, clusters, st2, last.body).vMap, ArmBinders(front), Binders(last.body));
    }
  }

  function Rebinding(x: LVar): Stm { LET(NUM(1), x, LET(NUM(2), x, THROW(NUM(0), [VAR(x)]))) }

  lemma RebindingRuns(sem: Semantics, x: LVar, s: SState)
    requires |s.regs| == NUM_REGS
    ensures !UniqueBinders(Rebinding(x)) && sem.Run(s, Rebinding(x)) == Call(0, STD_CONT, [2], s.regs, s.mem)
  {
    var k2 := THROW(NUM(0), [VAR(x)]);
    assert x in Binders(LET(NUM(2), x, k2));
    var s2 := s.(env := s.env[x := 1][x := 2]);
    assert [VAR(x)][..0] == [];
    assert sem.Exps([VAR(x)], s2) == sem.Exps([], s2) + [sem.Exp(VAR(x), s2)] == [2];
    assert sem.Run(s2, k2) == Call(0, STD_CONT, [2], s.regs, s.mem);
  }

  /** Why variables must not be bound twice: the source passes the last value, the generated code the first. */
  lemma RebindingDiffers(sem: Semantics, t: TargetInfo, st: Builder, x: LVar, s: SState)
    requires st.Ok() && |t.stkOffset| == NUM_REGS && x !in st.vMap && |s.regs| == NUM_REGS
    ensures !UniqueBinders(Rebinding(x)) && sem.Run(s, Rebinding(x)) == Call(0, STD_CONT, [2], s.regs, s.mem)
    ensures GenStm(t, sem.clusters, st, Rebinding(x)) ==
      Seal(st.Put(Emit(Bind(st.OpenLine(), x, Const(1)), TailCall,
        [Const(0)] + CreateArgs(t, st.regs, STD_CONT) + [Const(1)]).0), RetVoid)
  {
    RebindingRuns(sem, x, s);
    var l := Bind(st.OpenLine(), x, Const(1));
    assert Bind(l, x, Const(2)) == l;
    CallWithVar(t, l, x);
    var call := GenCall(t, l, NUM(0), STD_CONT, [VAR(x)]);
    hide GenCall, GenExps, Emit, CreateArgs;
    assert st.Put(l).Put(l) == st.Put(l) && st.Put(l).Put(call) == st.Put(call);
    assert GenStm(t, sem.clusters, st.Put(l), THROW(NUM(0), [VAR(x)])) == Seal(st.Put(call), RetVoid);
  }

  lemma CallWithVar(t: TargetInfo, l: Line, x: LVar)
    requires |l.regs| == NUM_REGS && |t.stkOffset| == NUM_REGS && x in l.vMap
    ensures GenCall(t, l, NUM(0), STD_CONT, [VAR(x)])
      == Emit(l, TailCall, [Const(0)] + CreateArgs(t, l.regs, STD_CONT) + [l.vMap[x]]).0
  {
    assert GenExps(t, l, []) == (l, []);
    assert [VAR(x)][..0] == [] && [] + [l.vMap[x]] == [l.vMap[x]];
    assert GenExp(t, l, VAR(x)) == (l, l.vMap[x]);
    assert GenExps(t, l, [VAR(x)]) == (l, [l.vMap[x]]);
    assert GenExp(t, l, NUM(0)) == (l, Const(0));
  }
}
