/** Running the generated blocks does what evaluating the CFG does. */
module Simulation {
  import opened Common
  import opened CMRegisters
  import opened TargetIR
  import opened CFG
  import opened CodeBuilder
  import opened StraightLine
  import opened Collection
  import opened Growth

  // ----- statements with one continuation -----

  lemma LetSim(sem: Semantics, m: Machine, l: Line, stm: Stm, scope: set<LVar>, s: SState, ts: TState, fin: Line)
    returns (ts': TState)
    requires sem.prims == m.prims && sem.target == m.target && stm.LET? && ScopedExp(stm.exp, scope) && stm.x !in l.vMap
    requires Sim(m, l, ts, l, scope, s, ts) && |m.target.stkOffset| == NUM_REGS && |s.regs| == NUM_REGS
    requires |l.regs| == NUM_REGS
    requires BlockHas(m, ts.block, fin) && GenSimple(m.target, l, stm).code <= fin.code
    ensures Sim(m, l, ts, GenSimple(m.target, l, stm), scope + {stm.x}, s.(env := s.env[stm.x := sem.Exp(stm.exp, s)]),
      ts')
    ensures GenSimple(m.target, l, stm).vMap.Keys == l.vMap.Keys + {stm.x}
  {
    hide Sim, Holds, AllHold, BlockHas;
    var (l1, o) := GenExp(m.target, l, stm.exp);
    ts' := ExpSim(sem, m, l, ts, l, stm.exp, scope, s, ts, fin);
    BindSim(m, l, ts, l1, stm.x, o, sem.Exp(stm.exp, s), scope, s, ts');
  }

  lemma AllocStmSim(sem: Semantics, m: Machine, l: Line, stm: Stm, scope: set<LVar>, s: SState, ts: TState, fin: Line)
    returns (ts': TState)
    requires sem.prims == m.prims && sem.target == m.target && stm.ALLOC? && IsSimple(stm)
    requires ScopedExps(stm.args, scope)
    requires stm.x !in l.vMap
    requires Sim(m, l, ts, l, scope, s, ts) && |m.target.stkOffset| == NUM_REGS && |s.regs| == NUM_REGS
    requires |l.regs| == NUM_REGS
    requires BlockHas(m, ts.block, fin) && GenSimple(m.target, l, stm).code <= fin.code
    ensures var (v, s') := sem.Alloc(stm.alloc, sem.Exps(stm.args, s), s);
      Sim(m, l, ts, GenSimple(m.target, l, stm), scope + {stm.x}, s'.(env := s'.env[stm.x := v]), ts')
  {
    hide Sim, Holds, AllHold, BlockHas;
    var (l1, os) := GenExps(m.target, l, stm.args);
    var ws := sem.Exps(stm.args, s);
    var (l2, o) := GenAlloc(m.target, l1, stm.alloc, os);
    var (v, s') := sem.Alloc(stm.alloc, ws, s);
    var ts1 := ExpsSim(sem, m, l, ts, l, stm.args, scope, s, ts, fin);
    ts' := AllocSim(sem, m, l, ts, l1, stm.alloc, os, ws, scope, s, ts1, fin);
    AllocKeeps(m.target, l1, stm.alloc, os);
    BindSim(m, l, ts, l2, stm.x, o, v, scope, s', ts');
  }

  lemma {:induction false} StoresKeep(t: TargetInfo, l: Line, ptr: Operand, os: seq<Operand>, n: nat)
    requires n <= |os| && |l.regs| == NUM_REGS
    ensures GenStoreWords(t, l, ptr, os, n).vMap == l.vMap
  {
    if n > 0 { StoresKeep(t, l, ptr, os, n - 1); }
  }

  lemma {:induction false} FieldsKeep(l: Line, obj: Operand, sizes: seq<nat>, os: seq<Operand>, n: nat)
    requires n <= |os| && |os| == |sizes| && |l.regs| == NUM_REGS
    ensures GenFields(l, obj, sizes, os, n).vMap == l.vMap
  {
    if n > 0 { FieldsKeep(l, obj, sizes, os, n - 1); }
  }

  lemma AllocKeeps(t: TargetInfo, l: Line, op: AllocOp, os: seq<Operand>)
    requires AllocArity(op, |os|) && |l.regs| == NUM_REGS && |t.stkOffset| == NUM_REGS
    ensures GenAlloc(t, l, op, os).0.vMap == l.vMap
  {
    var (l1, ptr) := MlReg(t, l, ALLOC_PTR);
    match op
    case RECORD(desc) => StoresKeep(t, Emit(l1, Store(t.wordSzB), [ptr, Const(desc)]).0, ptr, os, |os|);
    case SPECIAL => StoresKeep(t, Emit(l1, Store(t.wordSzB), [ptr, os[0]]).0, ptr, [os[1]], 1);
    case RAW_RECORD(desc, sizes) =>
      var l2 := Emit(l1, Store(t.wordSzB), [ptr, Const(desc)]).0;
      var (l3, obj) := Emit(l2, Gep(t.wordSzB), [ptr]);
      FieldsKeep(l3, obj, sizes, os, |os|);
    case RAW_ALLOC(_, _, _) =>
  }

  lemma ArithSim(sem: Semantics, m: Machine, l: Line, stm: Stm, scope: set<LVar>, s: SState, ts: TState, fin: Line)
    returns (ts': TState)
    requires sem.prims == m.prims && sem.target == m.target && stm.ARITH? && IsSimple(stm)
    requires ScopedExps(stm.args, scope)
    requires stm.x !in l.vMap
    requires Sim(m, l, ts, l, scope, s, ts) && |m.target.stkOffset| == NUM_REGS && |s.regs| == NUM_REGS
    requires |l.regs| == NUM_REGS
    requires BlockHas(m, ts.block, fin) && GenSimple(m.target, l, stm).code <= fin.code
    ensures Sim(m, l, ts, GenSimple(m.target, l, stm), scope + {stm.x},
                s.(env := s.env[stm.x := sem.prims.pure(stm.arith.op, sem.Exps(stm.args, s))]), ts')
  {
    hide Sim, Holds, AllHold, BlockHas;
    var (l1, os) := GenExps(m.target, l, stm.args);
    var ws := sem.Exps(stm.args, s);
    var v := sem.prims.pure(stm.arith.op, ws);
    var (l2, o) := Emit(l1, Pure(stm.arith.op), os);
    var ts1 := ExpsSim(sem, m, l, ts, l, stm.args, scope, s, ts, fin);
    ts' := ComputeSim(m, l, ts, l1, Pure(stm.arith.op), os, ws, v, scope, s, ts1, fin);
    BindSim(m, l, ts, l2, stm.x, o, v, scope, s, ts');
  }

  lemma SetterStmSim(sem: Semantics, m: Machine, l: Line, stm: Stm, scope: set<LVar>, s: SState, ts: TState,
                     fin: Line) returns (ts': TState)
    requires sem.prims == m.prims && sem.target == m.target && stm.SETTER? && IsSimple(stm)
    requires ScopedExps(stm.args, scope)
    requires Sim(m, l, ts, l, scope, s, ts) && |m.target.stkOffset| == NUM_REGS && |s.regs| == NUM_REGS
    requires |l.regs| == NUM_REGS
    requires BlockHas(m, ts.block, fin) && GenSimple(m.target, l, stm).code <= fin.code
    ensures Sim(m, l, ts, GenSimple(m.target, l, stm), scope, sem.Set(stm.setter, sem.Exps(stm.args, s), s), ts')
  {
    hide Sim, Holds, AllHold, BlockHas;
    var (l1, os) := GenExps(m.target, l, stm.args);
    var ws := sem.Exps(stm.args, s);
    var ts1 := ExpsSim(sem, m, l, ts, l, stm.args, scope, s, ts, fin);
    ts' := SetterSim(sem, m, l, ts, l1, stm.setter, os, ws, scope, s, ts1, fin);
  }

  lemma CallGCStmSim(sem: Semantics, m: Machine, l: Line, stm: Stm, scope: set<LVar>, s: SState, ts: TState,
                     fin: Line) returns (ts': TState)
    requires sem.prims == m.prims && sem.target == m.target && stm.CALLGC? && ScopedExps(stm.roots, scope)
    requires |stm.roots| == m.target.NumGCRoots() && |stm.newRoots| <= |stm.roots| && NoDup(stm.newRoots)
    requires Setting(m) && forall x :: x in stm.newRoots ==> x !in l.vMap
    requires Sim(m, l, ts, l, scope, s, ts) && |m.target.stkOffset| == NUM_REGS && |s.regs| == NUM_REGS
    requires |l.regs| == NUM_REGS
    requires BlockHas(m, ts.block, fin) && GenSimple(m.target, l, stm).code <= fin.code
    ensures var r := m.prims.gc(s.regs, sem.Exps(stm.roots, s), s.mem);
      && |r.regs| == NUM_REGS && |r.roots| == |stm.roots|
      && Sim(m, l, ts, GenSimple(m.target, l, stm), scope + Elems(stm.newRoots),
             SState(BindAll(s.env, stm.newRoots, r.roots, |stm.newRoots|), r.regs, r.mem), ts')
  {
    var (l1, os) := GenExps(m.target, l, stm.roots);
    var ws := sem.Exps(stm.roots, s);
    var ts1 := ExpsSim(sem, m, l, ts, l, stm.roots, scope, s, ts, fin);
    assert RuntimeIn(m, ts1.frame);
    hide Sim, Holds, AllHold, BlockHas, RuntimeIn, RegsMatch, VarsMatch, Runs, Later, CreateArgs, GenCallGC, GenExps;
    ts' := CollectSim(m, l, ts, l1, os, ws, stm.newRoots, scope, s, ts1, fin);
  }

  /** What a simple statement leaves for its continuation. */
  function After(sem: Semantics, s: SState, stm: Stm): SState
    requires IsSimple(stm) && |s.regs| == NUM_REGS
  {
    match stm
    case LET(e, x, _) => s.(env := s.env[x := sem.Exp(e, s)])
    case ALLOC(op, args, x, _) => var (v, s') := sem.Alloc(op, sem.Exps(args, s), s); s'.(env := s'.env[x := v])
    case ARITH(op, args, x, _) => s.(env := s.env[x := sem.prims.pure(op.op, sem.Exps(args, s))])
    case SETTER(op, args, _) => sem.Set(op, sem.Exps(args, s), s)
    case CALLGC(roots, xs, _) =>
      var r := sem.prims.gc(s.regs, sem.Exps(roots, s), s.mem);
      if |xs| <= |r.roots| then SState(BindAll(s.env, xs, r.roots, |xs|), r.regs, r.mem) else s
  }

  /** The code of a simple statement does what the statement does. */
  lemma SimpleSim(sem: Semantics, c: Context, m: Machine, l: Line, stm: Stm, scope: set<LVar>, s: SState, ts: TState,
                  fin: Line) returns (ts': TState)
    requires sem.prims == m.prims && sem.target == m.target == c.target && IsSimple(stm)
    requires Scoped(c, stm, scope) && UniqueBinders(stm) && Binders(stm) !! l.vMap.Keys
    requires Matches(m, l, scope, s, ts) && BlockHas(m, ts.block, fin) && GenSimple(m.target, l, stm).code <= fin.code
    ensures Sim(m, l, ts, GenSimple(m.target, l, stm), scope + Bound(stm), After(sem, s, stm), ts')
    ensures |After(sem, s, stm).regs| == NUM_REGS && sem.Run(s, stm) == sem.Run(After(sem, s, stm), Cont(stm))
  {
    SimStart(m, l, scope, s, ts);
    assert Setting(m) && |m.target.stkOffset| == NUM_REGS && |s.regs| == NUM_REGS && |l.regs| == NUM_REGS;
    hide Sim, Matches, BlockHas, GenSimple, RegsMatch;
    match stm
    case LET(_, _, _) => ts' := LetSim(sem, m, l, stm, scope, s, ts, fin);
    case ALLOC(_, _, _, _) => ts' := AllocStmSim(sem, m, l, stm, scope, s, ts, fin);
    case ARITH(_, _, _, _) => ts' := ArithSim(sem, m, l, stm, scope, s, ts, fin);
    case SETTER(_, _, _) =>
      ts' := SetterStmSim(sem, m, l, stm, scope, s, ts, fin);
      assert scope + Bound(stm) == scope;
    case CALLGC(_, _, _) => ts' := CallGCStmSim(sem, m, l, stm, scope, s, ts, fin);
  }

  lemma ScopedCont(c: Context, stm: Stm, scope: set<LVar>)
    requires IsSimple(stm) && Scoped(c, stm, scope) && UniqueBinders(stm)
    ensures Scoped(c, Cont(stm), scope + Bound(stm)) && UniqueBinders(Cont(stm))
    ensures Binders(stm) == Bound(stm) + Binders(Cont(stm)) && Bound(stm) !! Binders(Cont(stm))
  {
    if stm.SETTER? {
      assert scope + Bound(stm) == scope;
    }
  }
}
