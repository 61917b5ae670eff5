/** Straight-line code does what the source expression, allocation, assignment or collection means. */
module StraightLine {
  import opened Common
  import opened CMRegisters
  import opened TargetIR
  import opened CFG
  import opened CodeBuilder

  ghost predicate Reach(m: Machine, ts: TState, ts': TState) {
    exists k: nat :: m.Steps(k, ts) == Running(ts')
  }

  lemma ReachTrans(m: Machine, a: TState, b: TState, c: TState)
    requires Reach(m, a, b) && Reach(m, b, c)
    ensures Reach(m, a, c)
  {
    var j: nat :| m.Steps(j, a) == Running(b);
    var k: nat :| m.Steps(k, b) == Running(c);
    m.StepsCompose(j, k, a);
    assert m.Steps(j + k, a) == Running(c);
  }

  lemma ReachRefl(m: Machine, a: TState)
    ensures Reach(m, a, a)
  {
    assert m.Steps(0, a) == Running(a);
  }

  /** An operand that has a word as its value and names only SSA values below n. */
  ghost predicate Holds(m: Machine, n: nat, o: Operand, rho: map<nat, Val>, w: Word) {
    m.Ev(o, rho) == Some(W(w)) && (o.Id? ==> o.id < n)
  }

  ghost predicate AllHold(m: Machine, n: nat, os: seq<Operand>, rho: map<nat, Val>, ws: seq<Word>) {
    |os| == |ws| && forall i :: 0 <= i < |os| ==> Holds(m, n, os[i], rho, ws[i])
  }

  /** Values named below n are still there. */
  ghost predicate Keeps(n: nat, rho: map<nat, Val>, rho': map<nat, Val>) {
    forall d :: d < n && d in rho ==> d in rho' && rho'[d] == rho[d]
  }

  /** Machine registers are SSA values, the others are in their stack slots. */
  ghost predicate RegsMatch(m: Machine, n: nat, ops: seq<Option<Operand>>, regs: seq<Word>, rho: map<nat, Val>,
                            frame: Frame) {
    && |m.target.stkOffset| == NUM_REGS && |ops| == NUM_REGS && |regs| == NUM_REGS
    && (forall r: RegId :: m.target.IsMachineReg(r) ==> ops[r].Some? && Holds(m, n, ops[r].value, rho, regs[r]))
    && (forall r: RegId :: !m.target.IsMachineReg(r) ==>
          ops[r].None? && m.target.stkOffset[r] in frame && frame[m.target.stkOffset[r]] == regs[r])
  }

  /** The runtime's entry points are where the generated code looks for them. */
  ghost predicate RuntimeIn(m: Machine, frame: Frame) {
    && m.target.callGCOffset in frame && frame[m.target.callGCOffset] == m.prims.callGC
    && m.target.raiseOvflwOffset in frame && frame[m.target.raiseOvflwOffset] == m.prims.raiseOverflow
  }

  ghost predicate VarsMatch(m: Machine, n: nat, vMap: map<LVar, Operand>, scope: set<LVar>, env: map<LVar, Word>,
                            rho: map<nat, Val>) {
    forall x :: x in scope ==> x in env && x in vMap && Holds(m, n, vMap[x], rho, env[x])
  }

  ghost predicate Setting(m: Machine) { ValidTarget(m.target) && ValidPrims(m.prims) }

  /** The target state stands at the end of the line's code and agrees with the source state. */
  ghost predicate Matches(m: Machine, l: Line, scope: set<LVar>, s: SState, ts: TState) {
    && Setting(m)
    && ts.ix == |l.code|
    && VarsMatch(m, l.next, l.vMap, scope, s.env, ts.rho)
    && RegsMatch(m, l.next, l.regs, s.regs, ts.rho, ts.frame)
    && ts.mem == s.mem
    && RuntimeIn(m, ts.frame)
  }

  /** The code of line l is a prefix of the code of the state's block. */
  ghost predicate CodeIn(m: Machine, l: Line, ts: TState) {
    ts.block < |m.blocks| && l.code <= m.blocks[ts.block].body
  }

  /** Running the code between l and l' takes ts to ts'. */
  ghost predicate Runs(m: Machine, l: Line, l': Line, ts: TState, ts': TState) {
    && Reach(m, ts, ts')
    && ts'.block == ts.block && ts'.ix == |l'.code|
    && l.next <= l'.next && Keeps(l.next, ts.rho, ts'.rho)
  }

  lemma RunsTrans(m: Machine, l: Line, l1: Line, l2: Line, ts: TState, ts1: TState, ts2: TState)
    requires Runs(m, l, l1, ts, ts1) && Runs(m, l1, l2, ts1, ts2)
    ensures Runs(m, l, l2, ts, ts2)
  {
    ReachTrans(m, ts, ts1, ts2);
  }

  lemma RunsRefl(m: Machine, l: Line, ts: TState)
    requires ts.ix == |l.code|
    ensures Runs(m, l, l, ts, ts)
  {
    ReachRefl(m, ts);
  }

  /** Nothing a computation does disturbs what was known before it. */
  lemma MatchesLater(m: Machine, l: Line, l': Line, scope: set<LVar>, s: SState, ts: TState, ts': TState)
    requires Matches(m, l, scope, s, ts) && Runs(m, l, l', ts, ts')
    requires l'.vMap == l.vMap && l'.regs == l.regs && ts'.mem == ts.mem && ts'.frame == ts.frame
    ensures Matches(m, l', scope, s, ts')
  {}

  lemma EvAllHold(m: Machine, n: nat, os: seq<Operand>, rho: map<nat, Val>, ws: seq<Word>)
    requires AllHold(m, n, os, rho, ws)
    ensures m.EvAll(os, rho) == Some(Vals(ws))
  {
    forall i | 0 <= i < |os| ensures m.Ev(os[i], rho) == Some(W(ws[i])) {
      assert Holds(m, n, os[i], rho, ws[i]);
    }
    assert m.EvAll(os, rho).value == Vals(ws);
  }

  lemma AllHoldLater(m: Machine, n: nat, n': nat, os: seq<Operand>, rho: map<nat, Val>, rho': map<nat, Val>,
                     ws: seq<Word>)
    requires AllHold(m, n, os, rho, ws) && n <= n' && Keeps(n, rho, rho')
    ensures AllHold(m, n', os, rho', ws)
  {
    forall i | 0 <= i < |os| ensures Holds(m, n', os[i], rho', ws[i]) {
      assert Holds(m, n, os[i], rho, ws[i]);
    }
  }

  /** One emitted instruction is one step. */
  lemma EmitRuns(m: Machine, l: Line, op: Oper, os: seq<Operand>, vs: seq<Val>, ts: TState) returns (ts': TState)
    requires |l.regs| == NUM_REGS
    requires ts.ix == |l.code| && CodeIn(m, Emit(l, op, os).0, ts)
    requires m.EvAll(os, ts.rho) == Some(vs)
    requires m.Exec(op, vs, ts.mem, ts.frame).Next?
    ensures var e := m.Exec(op, vs, ts.mem, ts.frame);
      ts' == TState(ts.block, ts.ix + 1, ts.rho[l.next := e.v], e.mem, e.frame)
    ensures Runs(m, l, Emit(l, op, os).0, ts, ts')
  {
    var e := m.Exec(op, vs, ts.mem, ts.frame);
    ts' := TState(ts.block, ts.ix + 1, ts.rho[l.next := e.v], e.mem, e.frame);
    assert m.blocks[ts.block].body[ts.ix] == Emit(l, op, os).0.code[ts.ix] == Instr(l.next, op, os);
    assert m.Steps(1, ts) == m.Steps(0, ts');
  }

  /** An instruction on words that yields a word. */
  lemma EmitWord(m: Machine, l: Line, op: Oper, os: seq<Operand>, ws: seq<Word>, w: Word, ts: TState)
    returns (ts': TState)
    requires |l.regs| == NUM_REGS
    requires ts.ix == |l.code| && CodeIn(m, Emit(l, op, os).0, ts)
    requires AllHold(m, l.next, os, ts.rho, ws)
    requires m.Exec(op, Vals(ws), ts.mem, ts.frame) == Next(W(w), ts.mem, ts.frame)
    ensures Runs(m, l, Emit(l, op, os).0, ts, ts') && ts'.mem == ts.mem && ts'.frame == ts.frame
    ensures Holds(m, l.next + 1, Emit(l, op, os).1, ts'.rho, w)
  {
    EvAllHold(m, l.next, os, ts.rho, ws);
    ts' := EmitRuns(m, l, op, os, Vals(ws), ts);
  }

  /** Reading a register yields its value, wherever it lives. */
  lemma MlRegRuns(m: Machine, l: Line, r: RegId, scope: set<LVar>, s: SState, ts: TState) returns (ts': TState)
    requires Matches(m, l, scope, s, ts) && CodeIn(m, MlReg(m.target, l, r).0, ts)
    ensures var (l', o) := MlReg(m.target, l, r);
      Runs(m, l, l', ts, ts') && Matches(m, l', scope, s, ts') && Holds(m, l'.next, o, ts'.rho, s.regs[r])
    ensures ts'.mem == ts.mem && ts'.frame == ts.frame
  {
    if m.target.IsMachineReg(r) {
      ts' := ts;
      RunsRefl(m, l, ts);
    } else {
      ts' := EmitWord(m, l, LoadSlot(m.target.stkOffset[r]), [], [], s.regs[r], ts);
      MatchesLater(m, l, MlReg(m.target, l, r).0, scope, s, ts, ts');
    }
  }

  /** Writing a register changes that register and nothing else. */
  lemma SetMLRegRuns(m: Machine, l: Line, r: RegId, o: Operand, w: Word, scope: set<LVar>, s: SState, ts: TState)
    returns (ts': TState)
    requires Matches(m, l, scope, s, ts) && CodeIn(m, SetMLReg(m.target, l, r, o), ts)
    requires Holds(m, l.next, o, ts.rho, w)
    ensures Runs(m, l, SetMLReg(m.target, l, r, o), ts, ts')
    ensures Matches(m, SetMLReg(m.target, l, r, o), scope, s.(regs := s.regs[r := w]), ts')
    ensures ts'.mem == ts.mem
  {
    if m.target.IsMachineReg(r) {
      ts' := ts;
      RunsRefl(m, l, ts);
    } else {
      assert AllHold(m, l.next, [o], ts.rho, [w]);
      EvAllHold(m, l.next, [o], ts.rho, [w]);
      ts' := EmitRuns(m, l, StoreSlot(m.target.stkOffset[r]), [o], Vals([w]), ts);
      assert ts'.frame == ts.frame[m.target.stkOffset[r] := w];
    }
  }

  // ----- simulation, one instruction at a time -----

  /** Code from l0 to l has taken ts0 to ts, which still matches the source. */
  ghost predicate Sim(m: Machine, l0: Line, ts0: TState, l: Line, scope: set<LVar>, s: SState, ts: TState) {
    Runs(m, l0, l, ts0, ts) && Matches(m, l, scope, s, ts)
  }

  /** What held of operands still holds. */
  ghost predicate Later(m: Machine, l: Line, ts: TState, l': Line, ts': TState) {
    && ts'.block == ts.block
    && (forall o, w {:trigger Holds(m, l'.next, o, ts'.rho, w)} ::
          Holds(m, l.next, o, ts.rho, w) ==> Holds(m, l'.next, o, ts'.rho, w))
    && (forall os, ws {:trigger AllHold(m, l'.next, os, ts'.rho, ws)} ::
          AllHold(m, l.next, os, ts.rho, ws) ==> AllHold(m, l'.next, os, ts'.rho, ws))
  }

  ghost predicate BlockHas(m: Machine, b: nat, l: Line) {
    b < |m.blocks| && l.code <= m.blocks[b].body
  }

  lemma LaterByRuns(m: Machine, l: Line, l': Line, ts: TState, ts': TState)
    requires Runs(m, l, l', ts, ts')
    ensures Later(m, l, ts, l', ts')
  {
    forall os, ws | AllHold(m, l.next, os, ts.rho, ws) ensures AllHold(m, l'.next, os, ts'.rho, ws) {
      AllHoldLater(m, l.next, l'.next, os, ts.rho, ts'.rho, ws);
    }
  }

  lemma SimStart(m: Machine, l: Line, scope: set<LVar>, s: SState, ts: TState)
    requires Matches(m, l, scope, s, ts)
    ensures Sim(m, l, ts, l, scope, s, ts)
  {
    RunsRefl(m, l, ts);
  }

  /** Operators that act on words only. */
  predicate WordOp(op: Oper) { !op.Extract? && !op.CallRaise? && !op.TailCall? }

  /** An instruction that computes a word leaves the match intact. */
  lemma ComputeSim(m: Machine, l0: Line, ts0: TState, l: Line, op: Oper, os: seq<Operand>, ws: seq<Word>, w: Word,
                   scope: set<LVar>, s: SState, ts: TState, fin: Line)
    returns (ts': TState)
    requires Sim(m, l0, ts0, l, scope, s, ts) && AllHold(m, l.next, os, ts.rho, ws)
    requires |l.regs| == NUM_REGS && BlockHas(m, ts.block, fin) && Emit(l, op, os).0.code <= fin.code
    requires WordOp(op) && forall f: Frame :: m.ExecWords(op, ws, s.mem, f) == Next(W(w), s.mem, f)
    ensures var (l', o) := Emit(l, op, os);
      Sim(m, l0, ts0, l', scope, s, ts') && Later(m, l, ts, l', ts') && Holds(m, l'.next, o, ts'.rho, w)
  {
    ts' := EmitWord(m, l, op, os, ws, w, ts);
    MatchesLater(m, l, Emit(l, op, os).0, scope, s, ts, ts');
    RunsTrans(m, l0, l, Emit(l, op, os).0, ts0, ts, ts');
    LaterByRuns(m, l, Emit(l, op, os).0, ts, ts');
  }

  lemma GepSim(m: Machine, l0: Line, ts0: TState, l: Line, off: int, ptr: Operand, p: Word, scope: set<LVar>,
               s: SState, ts: TState, fin: Line)
    returns (ts': TState)
    requires Sim(m, l0, ts0, l, scope, s, ts) && Holds(m, l.next, ptr, ts.rho, p)
    requires |l.regs| == NUM_REGS && BlockHas(m, ts.block, fin) && Emit(l, Gep(off), [ptr]).0.code <= fin.code
    ensures var (l', o) := Emit(l, Gep(off), [ptr]);
      Sim(m, l0, ts0, l', scope, s, ts') && Later(m, l, ts, l', ts') && Holds(m, l'.next, o, ts'.rho, p + off)
  {
    ts' := ComputeSim(m, l0, ts0, l, Gep(off), [ptr], [p], p + off, scope, s, ts, fin);
  }

  lemma BinarySim(m: Machine, l0: Line, ts0: TState, l: Line, op: Oper, o1: Operand, w1: Word, o2: Operand, w2: Word,
                  w: Word, scope: set<LVar>, s: SState, ts: TState, fin: Line)
    returns (ts': TState)
    requires Sim(m, l0, ts0, l, scope, s, ts) && Holds(m, l.next, o1, ts.rho, w1) && Holds(m, l.next, o2, ts.rho, w2)
    requires |l.regs| == NUM_REGS && BlockHas(m, ts.block, fin) && Emit(l, op, [o1, o2]).0.code <= fin.code
    requires WordOp(op) && forall f: Frame :: m.ExecWords(op, [w1, w2], s.mem, f) == Next(W(w), s.mem, f)
    ensures var (l', o) := Emit(l, op, [o1, o2]);
      Sim(m, l0, ts0, l', scope, s, ts') && Later(m, l, ts, l', ts') && Holds(m, l'.next, o, ts'.rho, w)
  {
    ts' := ComputeSim(m, l0, ts0, l, op, [o1, o2], [w1, w2], w, scope, s, ts, fin);
  }

  /** An instruction that updates the heap carries the source heap along. */
  lemma UpdateSim(m: Machine, l0: Line, ts0: TState, l: Line, op: Oper, os: seq<Operand>, ws: seq<Word>, mem: Mem,
                  scope: set<LVar>, s: SState, ts: TState, fin: Line)
    returns (ts': TState)
    requires Sim(m, l0, ts0, l, scope, s, ts) && AllHold(m, l.next, os, ts.rho, ws)
    requires |l.regs| == NUM_REGS && BlockHas(m, ts.block, fin) && Emit(l, op, os).0.code <= fin.code
    requires WordOp(op) && forall f: Frame :: m.ExecWords(op, ws, s.mem, f) == Next(Undefined, mem, f)
    ensures var l' := Emit(l, op, os).0;
      Sim(m, l0, ts0, l', scope, s.(mem := mem), ts') && Later(m, l, ts, l', ts')
  {
    EvAllHold(m, l.next, os, ts.rho, ws);
    ts' := EmitRuns(m, l, op, os, Vals(ws), ts);
    RunsTrans(m, l0, l, Emit(l, op, os).0, ts0, ts, ts');
    LaterByRuns(m, l, Emit(l, op, os).0, ts, ts');
  }

  lemma StoreSim(m: Machine, l0: Line, ts0: TState, l: Line, szb: nat, adr: Operand, a: Word, val: Operand, v: Word,
                 scope: set<LVar>, s: SState, ts: TState, fin: Line)
    returns (ts': TState)
    requires Sim(m, l0, ts0, l, scope, s, ts) && Holds(m, l.next, adr, ts.rho, a) && Holds(m, l.next, val, ts.rho, v)
    requires |l.regs| == NUM_REGS && BlockHas(m, ts.block, fin) && Emit(l, Store(szb), [adr, val]).0.code <= fin.code
    ensures var l' := Emit(l, Store(szb), [adr, val]).0;
      Sim(m, l0, ts0, l', scope, s.(mem := m.prims.store(szb, a, v, s.mem)), ts') && Later(m, l, ts, l', ts')
  {
    ts' := UpdateSim(m, l0, ts0, l, Store(szb), [adr, val], [a, v], m.prims.store(szb, a, v, s.mem), scope, s, ts, fin);
  }

  lemma MlRegSim(m: Machine, l0: Line, ts0: TState, l: Line, r: RegId, scope: set<LVar>, s: SState, ts: TState,
                 fin: Line)
    returns (ts': TState)
    requires Sim(m, l0, ts0, l, scope, s, ts) && |m.target.stkOffset| == NUM_REGS && |s.regs| == NUM_REGS
    requires |l.regs| == NUM_REGS && BlockHas(m, ts.block, fin) && MlReg(m.target, l, r).0.code <= fin.code
    ensures var (l', o) := MlReg(m.target, l, r);
      Sim(m, l0, ts0, l', scope, s, ts') && Later(m, l, ts, l', ts') && Holds(m, l'.next, o, ts'.rho, s.regs[r])
  {
    ts' := MlRegRuns(m, l, r, scope, s, ts);
    RunsTrans(m, l0, l, MlReg(m.target, l, r).0, ts0, ts, ts');
    LaterByRuns(m, l, MlReg(m.target, l, r).0, ts, ts');
  }

  lemma SetMLRegSim(m: Machine, l0: Line, ts0: TState, l: Line, r: RegId, o: Operand, w: Word, scope: set<LVar>,
                    s: SState, ts: TState, fin: Line)
    returns (ts': TState)
    requires Sim(m, l0, ts0, l, scope, s, ts) && Holds(m, l.next, o, ts.rho, w)
    requires |m.target.stkOffset| == NUM_REGS && |s.regs| == NUM_REGS
    requires |l.regs| == NUM_REGS && BlockHas(m, ts.block, fin) && SetMLReg(m.target, l, r, o).code <= fin.code
    ensures var l' := SetMLReg(m.target, l, r, o);
      Sim(m, l0, ts0, l', scope, s.(regs := s.regs[r := w]), ts') && Later(m, l, ts, l', ts')
  {
    ts' := SetMLRegRuns(m, l, r, o, w, scope, s, ts);
    RunsTrans(m, l0, l, SetMLReg(m.target, l, r, o), ts0, ts, ts');
    LaterByRuns(m, l, SetMLReg(m.target, l, r, o), ts, ts');
  }

  lemma AllHoldAt(m: Machine, n: nat, os: seq<Operand>, rho: map<nat, Val>, ws: seq<Word>)
    requires AllHold(m, n, os, rho, ws)
    ensures |os| == |ws| && forall i :: 0 <= i < |os| ==> Holds(m, n, os[i], rho, ws[i])
  {}

  lemma LoadSim(m: Machine, l0: Line, ts0: TState, l: Line, adr: Operand, a: Word, scope: set<LVar>, s: SState,
                ts: TState, fin: Line)
    returns (ts': TState)
    requires Sim(m, l0, ts0, l, scope, s, ts) && Holds(m, l.next, adr, ts.rho, a)
    requires |l.regs| == NUM_REGS && BlockHas(m, ts.block, fin) && Emit(l, Load, [adr]).0.code <= fin.code
    ensures var (l', o) := Emit(l, Load, [adr]);
      Sim(m, l0, ts0, l', scope, s, ts') && Later(m, l, ts, l', ts')
        && Holds(m, l'.next, o, ts'.rho, m.prims.load(a, s.mem))
  {
    ts' := ComputeSim(m, l0, ts0, l, Load, [adr], [a], m.prims.load(a, s.mem), scope, s, ts, fin);
  }

  // ----- expressions -----

  lemma AtomSim(sem: Semantics, m: Machine, l0: Line, ts0: TState, l: Line, e: Exp, scope: set<LVar>, s: SState,
                ts: TState)
    returns (ts': TState)
    requires sem.prims == m.prims && ScopedExp(e, scope) && (e.VAR? || e.LABEL? || e.NUM?)
    requires Sim(m, l0, ts0, l, scope, s, ts)
    requires |m.target.stkOffset| == NUM_REGS && |s.regs| == NUM_REGS && |l.regs| == NUM_REGS
    ensures var (l', o) := GenExp(m.target, l, e);
      Sim(m, l0, ts0, l', scope, s, ts') && Later(m, l, ts, l', ts') && Holds(m, l'.next, o, ts'.rho, sem.Exp(e, s))
  {
    ts' := ts;
  }

  lemma LookerSim(sem: Semantics, m: Machine, l0: Line, ts0: TState, l: Line, op: LookerOp, os: seq<Operand>,
                  ws: seq<Word>, scope: set<LVar>, s: SState, ts: TState, fin: Line)
    returns (ts': TState)
    requires sem.prims == m.prims && sem.target == m.target
    requires Sim(m, l0, ts0, l, scope, s, ts) && AllHold(m, l.next, os, ts.rho, ws)
    requires |m.target.stkOffset| == NUM_REGS && |s.regs| == NUM_REGS && |l.regs| == NUM_REGS
    requires BlockHas(m, ts.block, fin) && GenLooker(m.target, l, op, os).0.code <= fin.code
    ensures var (l', o) := GenLooker(m.target, l, op, os);
      Sim(m, l0, ts0, l', scope, s, ts') && Later(m, l, ts, l', ts')
        && Holds(m, l'.next, o, ts'.rho, sem.Looker(op, ws, s))
  {
    hide Sim, Holds, AllHold, BlockHas, Later;
    match op
    case GET_HDLR => ts' := MlRegSim(m, l0, ts0, l, EXN_HNDLR, scope, s, ts, fin);
    case GET_VAR => ts' := MlRegSim(m, l0, ts0, l, VAR_PTR, scope, s, ts, fin);
    case LOOK(o) => ts' := ComputeSim(m, l0, ts0, l, Look(o), os, ws, sem.Looker(op, ws, s), scope, s, ts, fin);
  }

  lemma SelectSim(m: Machine, l0: Line, ts0: TState, l: Line, off: nat, o: Operand, w: Word, scope: set<LVar>,
                  s: SState, ts: TState, fin: Line)
    returns (ts': TState)
    requires Sim(m, l0, ts0, l, scope, s, ts) && Holds(m, l.next, o, ts.rho, w)
    requires |l.regs| == NUM_REGS && BlockHas(m, ts.block, fin) && GenSelect(l, off, o).0.code <= fin.code
    ensures var (l', o') := GenSelect(l, off, o);
      Sim(m, l0, ts0, l', scope, s, ts') && Later(m, l, ts, l', ts')
        && Holds(m, l'.next, o', ts'.rho, m.prims.load(w + off, s.mem))
  {
    hide Sim, Holds, AllHold, BlockHas;
    var (l1, adr) := Emit(l, Gep(off), [o]);
    var ts1 := GepSim(m, l0, ts0, l, off, o, w, scope, s, ts, fin);
    ts' := LoadSim(m, l0, ts0, l1, adr, w + off, scope, s, ts1, fin);
  }

  lemma {:induction false} ExpSim(sem: Semantics, m: Machine, l0: Line, ts0: TState, l: Line, e: Exp,
                                  scope: set<LVar>, s: SState, ts: TState, fin: Line) returns (ts': TState)
    requires sem.prims == m.prims && sem.target == m.target && ScopedExp(e, scope)
    requires Sim(m, l0, ts0, l, scope, s, ts)
    requires |m.target.stkOffset| == NUM_REGS && |s.regs| == NUM_REGS && |l.regs| == NUM_REGS
    requires BlockHas(m, ts.block, fin) && GenExp(m.target, l, e).0.code <= fin.code
    ensures var (l', o) := GenExp(m.target, l, e);
      Sim(m, l0, ts0, l', scope, s, ts') && Later(m, l, ts, l', ts') && Holds(m, l'.next, o, ts'.rho, sem.Exp(e, s))
    decreases e
  {
    var t := m.target;
    match e
    case VAR(_) => ts' := AtomSim(sem, m, l0, ts0, l, e, scope, s, ts);
    case LABEL(_) => ts' := AtomSim(sem, m, l0, ts0, l, e, scope, s, ts);
    case NUM(_) => ts' := AtomSim(sem, m, l0, ts0, l, e, scope, s, ts);
    case LOOKER(op, args) =>
      hide Sim, Holds, AllHold, BlockHas;
      var (l1, os) := GenExps(t, l, args);
      var ts1 := ExpsSim(sem, m, l0, ts0, l, args, scope, s, ts, fin);
      ts' := LookerSim(sem, m, l0, ts0, l1, op, os, sem.Exps(args, s), scope, s, ts1, fin);
    case PURE(o, args) =>
      hide Sim, Holds, AllHold, BlockHas;
      var (l1, os) := GenExps(t, l, args);
      var ts1 := ExpsSim(sem, m, l0, ts0, l, args, scope, s, ts, fin);
      ts' := ComputeSim(m, l0, ts0, l1, Pure(o), os, sem.Exps(args, s), sem.Exp(e, s), scope, s, ts1, fin);
    case SELECT(i, a) =>
      hide Sim, Holds, AllHold, BlockHas;
      var (l1, o) := GenExp(t, l, a);
      var w := sem.Exp(a, s);
      var ts1 := ExpSim(sem, m, l0, ts0, l, a, scope, s, ts, fin);
      ts' := SelectSim(m, l0, ts0, l1, i * t.wordSzB, o, w, scope, s, ts1, fin);
  }

  lemma {:induction false} ExpsSim(sem: Semantics, m: Machine, l0: Line, ts0: TState, l: Line, es: seq<Exp>,
                                   scope: set<LVar>, s: SState, ts: TState, fin: Line) returns (ts': TState)
    requires sem.prims == m.prims && sem.target == m.target && ScopedExps(es, scope)
    requires Sim(m, l0, ts0, l, scope, s, ts)
    requires |m.target.stkOffset| == NUM_REGS && |s.regs| == NUM_REGS && |l.regs| == NUM_REGS
    requires BlockHas(m, ts.block, fin) && GenExps(m.target, l, es).0.code <= fin.code
    ensures var (l', os) := GenExps(m.target, l, es);
      Sim(m, l0, ts0, l', scope, s, ts') && Later(m, l, ts, l', ts')
        && AllHold(m, l'.next, os, ts'.rho, sem.Exps(es, s))
    decreases es
  {
    if es == [] {
      ts' := ts;
    } else {
      hide Sim, Holds, AllHold, BlockHas;
      var front, last := es[..|es| - 1], es[|es| - 1];
      var (l1, os) := GenExps(m.target, l, front);
      var (l2, o) := GenExp(m.target, l1, last);
      var ts1 := ExpsSim(sem, m, l0, ts0, l, front, scope, s, ts, fin);
      ts' := ExpSim(sem, m, l0, ts0, l1, last, scope, s, ts1, fin);
      AllHoldSnoc(m, l2.next, os, o, ts'.rho, sem.Exps(front, s), sem.Exp(last, s));
    }
  }

  lemma AllHoldSnoc(m: Machine, n: nat, os: seq<Operand>, o: Operand, rho: map<nat, Val>, ws: seq<Word>, w: Word)
    requires AllHold(m, n, os, rho, ws) && Holds(m, n, o, rho, w)
    ensures AllHold(m, n, os + [o], rho, ws + [w])
  {}

  // ----- allocation, assignment, tests -----

  lemma {:induction false} StoreWordsSim(sem: Semantics, m: Machine, l0: Line, ts0: TState, l: Line, ptr: Operand,
                                         p: Word, os: seq<Operand>, ws: seq<Word>, n: nat, scope: set<LVar>,
                                         s: SState, ts: TState, fin: Line) returns (ts': TState)
    requires sem.prims == m.prims && sem.target == m.target && n <= |os| == |ws|
    requires Sim(m, l0, ts0, l, scope, s, ts) && Holds(m, l.next, ptr, ts.rho, p) && AllHold(m, l.next, os, ts.rho, ws)
    requires |l.regs| == NUM_REGS && BlockHas(m, ts.block, fin)
    requires GenStoreWords(m.target, l, ptr, os, n).code <= fin.code
    ensures var l' := GenStoreWords(m.target, l, ptr, os, n);
      Sim(m, l0, ts0, l', scope, s.(mem := sem.StoreWords(p, ws, n, s.mem)), ts') && Later(m, l, ts, l', ts')
  {
    hide Sim, Holds, AllHold, BlockHas;
    if n == 0 {
      ts' := ts;
    } else {
      var t, w := m.target, m.target.wordSzB;
      var l1 := GenStoreWords(t, l, ptr, os, n - 1);
      var (l2, adr) := Emit(l1, Gep(n * w), [ptr]);
      var s1 := s.(mem := sem.StoreWords(p, ws, n - 1, s.mem));
      var ts1 := StoreWordsSim(sem, m, l0, ts0, l, ptr, p, os, ws, n - 1, scope, s, ts, fin);
      var ts2 := GepSim(m, l0, ts0, l1, n * w, ptr, p, scope, s1, ts1, fin);
      AllHoldAt(m, l.next, os, ts.rho, ws);
      ts' := StoreSim(m, l0, ts0, l2, w, adr, p + n * w, os[n - 1], ws[n - 1], scope, s1, ts2, fin);
    }
  }

  lemma {:induction false} FieldsSim(sem: Semantics, m: Machine, l0: Line, ts0: TState, l: Line, obj: Operand,
                                     b: Word, sizes: seq<nat>, os: seq<Operand>, ws: seq<Word>, n: nat,
                                     scope: set<LVar>, s: SState, ts: TState, fin: Line) returns (ts': TState)
    requires sem.prims == m.prims && sem.target == m.target && n <= |os| == |ws| == |sizes|
    requires Sim(m, l0, ts0, l, scope, s, ts) && Holds(m, l.next, obj, ts.rho, b) && AllHold(m, l.next, os, ts.rho, ws)
    requires |l.regs| == NUM_REGS && BlockHas(m, ts.block, fin) && GenFields(l, obj, sizes, os, n).code <= fin.code
    ensures var l' := GenFields(l, obj, sizes, os, n);
      Sim(m, l0, ts0, l', scope, s.(mem := sem.StoreFields(b, sizes, ws, n, s.mem)), ts') && Later(m, l, ts, l', ts')
  {
    hide Sim, Holds, AllHold, BlockHas;
    if n == 0 {
      ts' := ts;
    } else {
      var off := FieldOffset(sizes, n - 1);
      var l1 := GenFields(l, obj, sizes, os, n - 1);
      var (l2, adr) := Emit(l1, Gep(off), [obj]);
      var s1 := s.(mem := sem.StoreFields(b, sizes, ws, n - 1, s.mem));
      var ts1 := FieldsSim(sem, m, l0, ts0, l, obj, b, sizes, os, ws, n - 1, scope, s, ts, fin);
      var ts2 := GepSim(m, l0, ts0, l1, off, obj, b, scope, s1, ts1, fin);
      AllHoldAt(m, l.next, os, ts.rho, ws);
      ts' := StoreSim(m, l0, ts0, l2, sizes[n - 1], adr, b + off, os[n - 1], ws[n - 1], scope, s1, ts2, fin);
    }
  }

  lemma AllocRecordSim(sem: Semantics, m: Machine, l0: Line, ts0: TState, l: Line, desc: Operand, d: Word,
                       os: seq<Operand>, ws: seq<Word>, scope: set<LVar>, s: SState, ts: TState, fin: Line)
    returns (ts': TState)
    requires sem.prims == m.prims && sem.target == m.target && |os| == |ws|
    requires Sim(m, l0, ts0, l, scope, s, ts) && Holds(m, l.next, desc, ts.rho, d) && AllHold(m, l.next, os, ts.rho, ws)
    requires |m.target.stkOffset| == NUM_REGS && |s.regs| == NUM_REGS && |l.regs| == NUM_REGS
    requires BlockHas(m, ts.block, fin) && AllocRecord(m.target, l, desc, os).0.code <= fin.code
    ensures var (l', o) := AllocRecord(m.target, l, desc, os); var (v, s') := sem.Record(d, ws, s);
      Sim(m, l0, ts0, l', scope, s', ts') && Holds(m, l'.next, o, ts'.rho, v)
  {
    hide Sim, Holds, AllHold, BlockHas;
    var t, w, p := m.target, m.target.wordSzB, s.regs[ALLOC_PTR];
    var (l1, ptr) := MlReg(t, l, ALLOC_PTR);
    var l2 := Emit(l1, Store(w), [ptr, desc]).0;
    var l3 := GenStoreWords(t, l2, ptr, os, |os|);
    var (l4, obj) := Emit(l3, Gep(w), [ptr]);
    var (l5, top) := Emit(l4, Gep((|os| + 1) * w), [ptr]);
    var s2 := s.(mem := sem.prims.store(w, p, d, s.mem));
    var s3 := s2.(mem := sem.StoreWords(p, ws, |ws|, s2.mem));
    var ts1 := MlRegSim(m, l0, ts0, l, ALLOC_PTR, scope, s, ts, fin);
    var ts2 := StoreSim(m, l0, ts0, l1, w, ptr, p, desc, d, scope, s, ts1, fin);
    var ts3 := StoreWordsSim(sem, m, l0, ts0, l2, ptr, p, os, ws, |os|, scope, s2, ts2, fin);
    var ts4 := GepSim(m, l0, ts0, l3, w, ptr, p, scope, s3, ts3, fin);
    var ts5 := GepSim(m, l0, ts0, l4, (|os| + 1) * w, ptr, p, scope, s3, ts4, fin);
    ts' := SetMLRegSim(m, l0, ts0, l5, ALLOC_PTR, top, p + (|os| + 1) * w, scope, s3, ts5, fin);
  }

  lemma RawRecordSim(sem: Semantics, m: Machine, l0: Line, ts0: TState, l: Line, desc: Word, sizes: seq<nat>,
                     os: seq<Operand>, ws: seq<Word>, scope: set<LVar>, s: SState, ts: TState, fin: Line)
    returns (ts': TState)
    requires sem.prims == m.prims && sem.target == m.target && |os| == |ws| && AllocArity(RAW_RECORD(desc, sizes), |os|)
    requires Sim(m, l0, ts0, l, scope, s, ts) && AllHold(m, l.next, os, ts.rho, ws)
    requires |m.target.stkOffset| == NUM_REGS && |s.regs| == NUM_REGS && |l.regs| == NUM_REGS
    requires BlockHas(m, ts.block, fin) && GenAlloc(m.target, l, RAW_RECORD(desc, sizes), os).0.code <= fin.code
    ensures var (l', o) := GenAlloc(m.target, l, RAW_RECORD(desc, sizes), os);
      var (v, s') := sem.Alloc(RAW_RECORD(desc, sizes), ws, s);
      Sim(m, l0, ts0, l', scope, s', ts') && Holds(m, l'.next, o, ts'.rho, v)
  {
    hide Sim, Holds, AllHold, BlockHas, MlReg, SetMLReg, Emit, GenFields;
    var t, w, p := m.target, m.target.wordSzB, s.regs[ALLOC_PTR];
    var bump := RawRecordBump(w, sizes);
    var (l1, ptr) := MlReg(t, l, ALLOC_PTR);
    var l2 := Emit(l1, Store(w), [ptr, Const(desc)]).0;
    var (l3, obj) := Emit(l2, Gep(w), [ptr]);
    var l4 := GenFields(l3, obj, sizes, os, |os|);
    var (l5, top) := Emit(l4, Gep(bump), [obj]);
    var s2 := s.(mem := sem.prims.store(w, p, desc, s.mem));
    var s4 := s2.(mem := sem.StoreFields(p + w, sizes, ws, |ws|, s2.mem));
    var ts1 := MlRegSim(m, l0, ts0, l, ALLOC_PTR, scope, s, ts, fin);
    ConstHolds(m, l1.next, ts1.rho, desc);
    var ts2 := StoreSim(m, l0, ts0, l1, w, ptr, p, Const(desc), desc, scope, s, ts1, fin);
    var ts3 := GepSim(m, l0, ts0, l2, w, ptr, p, scope, s2, ts2, fin);
    var ts4 := FieldsSim(sem, m, l0, ts0, l3, obj, p + w, sizes, os, ws, |os|, scope, s2, ts3, fin);
    var ts5 := GepSim(m, l0, ts0, l4, bump, obj, p + w, scope, s4, ts4, fin);
    ts' := SetMLRegSim(m, l0, ts0, l5, ALLOC_PTR, top, p + w + bump, scope, s4, ts5, fin);
  }

  lemma ConstHolds(m: Machine, n: nat, rho: map<nat, Val>, w: Word)
    ensures Holds(m, n, Const(w), rho, w)
  {}

  lemma AlignSim(m: Machine, l0: Line, ts0: TState, l: Line, op: AllocOp, p1: Operand, p: Word, scope: set<LVar>,
                 s: SState, ts: TState, fin: Line) returns (ts': TState)
    requires op.RAW_ALLOC? && Sim(m, l0, ts0, l, scope, s, ts) && Holds(m, l.next, p1, ts.rho, p)
    requires |l.regs| == NUM_REGS && BlockHas(m, ts.block, fin) && GenAlign(m.target, l, op, p1).0.code <= fin.code
    ensures var (l', o) := GenAlign(m.target, l, op, p1);
      Sim(m, l0, ts0, l', scope, s, ts') && Later(m, l, ts, l', ts') &&
      Holds(m, l'.next, o, ts'.rho, Aligned(m.prims, m.target.wordSzB, op, p))
  {
    hide Sim, Holds, AllHold, BlockHas;
    var w := m.target.wordSzB;
    if op.tag.Some? && op.align > w {
      ConstHolds(m, l.next, ts.rho, op.align - w);
      ts' := BinarySim(m, l0, ts0, l, OrWord, p1, p, Const(op.align - w), op.align - w, m.prims.orWord(p, op.align - w),
                       scope, s, ts, fin);
    } else {
      ts' := ts;
    }
  }

  lemma TagSim(m: Machine, l0: Line, ts0: TState, l: Line, op: AllocOp, ptr: Operand, q: Word, scope: set<LVar>,
               s: SState, ts: TState, fin: Line) returns (ts': TState)
    requires op.RAW_ALLOC? && Sim(m, l0, ts0, l, scope, s, ts) && Holds(m, l.next, ptr, ts.rho, q)
    requires |l.regs| == NUM_REGS && BlockHas(m, ts.block, fin) && GenTag(m.target, l, op, ptr).code <= fin.code
    ensures var l' := GenTag(m.target, l, op, ptr);
      Later(m, l, ts, l', ts') &&
      Sim(m, l0, ts0, l', scope, s.(mem := Tagged(m.prims, m.target.wordSzB, op, q, s.mem)), ts')
  {
    hide Sim, Holds, AllHold, BlockHas;
    var w := m.target.wordSzB;
    if op.tag.Some? {
      ConstHolds(m, l.next, ts.rho, op.tag.value);
      ts' := StoreSim(m, l0, ts0, l, w, ptr, q, Const(op.tag.value), op.tag.value, scope, s, ts, fin);
    } else {
      ts' := ts;
    }
  }

  lemma RawAllocSim(sem: Semantics, m: Machine, l0: Line, ts0: TState, l: Line, op: AllocOp, os: seq<Operand>,
                    ws: seq<Word>, scope: set<LVar>, s: SState, ts: TState, fin: Line)
    returns (ts': TState)
    requires sem.prims == m.prims && sem.target == m.target && op.RAW_ALLOC?
    requires Sim(m, l0, ts0, l, scope, s, ts)
    requires |m.target.stkOffset| == NUM_REGS && |s.regs| == NUM_REGS && |l.regs| == NUM_REGS
    requires BlockHas(m, ts.block, fin) && GenAlloc(m.target, l, op, os).0.code <= fin.code
    ensures var (l', o) := GenAlloc(m.target, l, op, os); var (v, s') := sem.Alloc(op, ws, s);
      Sim(m, l0, ts0, l', scope, s', ts') && Holds(m, l'.next, o, ts'.rho, v)
  {
    hide Sim, Holds, AllHold, BlockHas, MlReg, SetMLReg, Emit, GenAlign, GenTag;
    var t, w, p := m.target, m.target.wordSzB, s.regs[ALLOC_PTR];
    var q := Aligned(sem.prims, w, op, p);
    var (l1, p1) := MlReg(t, l, ALLOC_PTR);
    var (l2, ptr) := GenAlign(t, l1, op, p1);
    var l3 := GenTag(t, l2, op, ptr);
    var (l4, obj) := Emit(l3, Gep(w), [ptr]);
    var (l5, top) := Emit(l4, Gep(op.len + w), [ptr]);
    var s3 := s.(mem := Tagged(sem.prims, w, op, q, s.mem));
    var ts1 := MlRegSim(m, l0, ts0, l, ALLOC_PTR, scope, s, ts, fin);
    var ts2 := AlignSim(m, l0, ts0, l1, op, p1, p, scope, s, ts1, fin);
    var ts3 := TagSim(m, l0, ts0, l2, op, ptr, q, scope, s, ts2, fin);
    var ts4 := GepSim(m, l0, ts0, l3, w, ptr, q, scope, s3, ts3, fin);
    var ts5 := GepSim(m, l0, ts0, l4, op.len + w, ptr, q, scope, s3, ts4, fin);
    ts' := SetMLRegSim(m, l0, ts0, l5, ALLOC_PTR, top, q + (op.len + w), scope, s3, ts5, fin);
  }

  /** Every allocation's code stores what the allocation stores, yields its object and bumps the pointer. */
  lemma AllocSim(sem: Semantics, m: Machine, l0: Line, ts0: TState, l: Line, op: AllocOp, os: seq<Operand>,
                 ws: seq<Word>, scope: set<LVar>, s: SState, ts: TState, fin: Line)
    returns (ts': TState)
    requires sem.prims == m.prims && sem.target == m.target && |os| == |ws| && AllocArity(op, |os|)
    requires Sim(m, l0, ts0, l, scope, s, ts) && AllHold(m, l.next, os, ts.rho, ws)
    requires |m.target.stkOffset| == NUM_REGS && |s.regs| == NUM_REGS && |l.regs| == NUM_REGS
    requires BlockHas(m, ts.block, fin) && GenAlloc(m.target, l, op, os).0.code <= fin.code
    ensures var (l', o) := GenAlloc(m.target, l, op, os); var (v, s') := sem.Alloc(op, ws, s);
      Sim(m, l0, ts0, l', scope, s', ts') && Holds(m, l'.next, o, ts'.rho, v)
  {
    match op
    case RECORD(desc) => ts' := AllocRecordSim(sem, m, l0, ts0, l, Const(desc), desc, os, ws, scope, s, ts, fin);
    case SPECIAL =>
      AllHoldAt(m, l.next, os, ts.rho, ws);
      assert ws[1..] == [ws[1]];
      assert AllHold(m, l.next, [os[1]], ts.rho, [ws[1]]);
      ts' := AllocRecordSim(sem, m, l0, ts0, l, os[0], ws[0], [os[1]], [ws[1]], scope, s, ts, fin);
    case RAW_RECORD(desc, sizes) => ts' := RawRecordSim(sem, m, l0, ts0, l, desc, sizes, os, ws, scope, s, ts, fin);
    case RAW_ALLOC(_, _, _) => ts' := RawAllocSim(sem, m, l0, ts0, l, op, os, ws, scope, s, ts, fin);
  }

  lemma RecordStoreSim(sem: Semantics, m: Machine, l0: Line, ts0: TState, l: Line, adr: Operand, a: Word,
                       scope: set<LVar>, s: SState, ts: TState, fin: Line)
    returns (ts': TState)
    requires sem.prims == m.prims && sem.target == m.target
    requires Sim(m, l0, ts0, l, scope, s, ts) && Holds(m, l.next, adr, ts.rho, a)
    requires |m.target.stkOffset| == NUM_REGS && |s.regs| == NUM_REGS && |l.regs| == NUM_REGS
    requires BlockHas(m, ts.block, fin) && GenRecordStore(m.target, l, adr).code <= fin.code
    ensures var l' := GenRecordStore(m.target, l, adr);
      Sim(m, l0, ts0, l', scope, sem.RecordStore(a, s), ts') && Later(m, l, ts, l', ts')
  {
    hide Sim, Holds, AllHold, BlockHas;
    var t, w, p := m.target, m.target.wordSzB, s.regs[ALLOC_PTR];
    var (l1, ptr) := MlReg(t, l, ALLOC_PTR);
    var (l2, list) := MlReg(t, l1, STORE_PTR);
    var (l3, head) := Emit(l2, Gep(0), [ptr]);
    var l4 := Emit(l3, Store(w), [head, adr]).0;
    var (l5, link) := Emit(l4, Gep(w), [ptr]);
    var l6 := Emit(l5, Store(w), [link, list]).0;
    var l7 := SetMLReg(t, l6, STORE_PTR, ptr);
    var (l8, top) := Emit(l7, Gep(2 * w), [ptr]);
    var s4 := s.(mem := sem.prims.store(w, p, a, s.mem));
    var s6 := s4.(mem := sem.prims.store(w, p + w, s.regs[STORE_PTR], s4.mem));
    var s7 := s6.(regs := s.regs[STORE_PTR := p]);
    var ts1 := MlRegSim(m, l0, ts0, l, ALLOC_PTR, scope, s, ts, fin);
    var ts2 := MlRegSim(m, l0, ts0, l1, STORE_PTR, scope, s, ts1, fin);
    var ts3 := GepSim(m, l0, ts0, l2, 0, ptr, p, scope, s, ts2, fin);
    var ts4 := StoreSim(m, l0, ts0, l3, w, head, p, adr, a, scope, s, ts3, fin);
    var ts5 := GepSim(m, l0, ts0, l4, w, ptr, p, scope, s4, ts4, fin);
    var ts6 := StoreSim(m, l0, ts0, l5, w, link, p + w, list, s.regs[STORE_PTR], scope, s4, ts5, fin);
    var ts7 := SetMLRegSim(m, l0, ts0, l6, STORE_PTR, ptr, p, scope, s6, ts6, fin);
    var ts8 := GepSim(m, l0, ts0, l7, 2 * w, ptr, p, scope, s7, ts7, fin);
    ts' := SetMLRegSim(m, l0, ts0, l8, ALLOC_PTR, top, p + 2 * w, scope, s7, ts8, fin);
  }

  lemma SetterSim(sem: Semantics, m: Machine, l0: Line, ts0: TState, l: Line, op: SetterOp, os: seq<Operand>,
                  ws: seq<Word>, scope: set<LVar>, s: SState, ts: TState, fin: Line)
    returns (ts': TState)
    requires sem.prims == m.prims && sem.target == m.target && |os| == |ws| && SetterArity(op, |os|)
    requires Sim(m, l0, ts0, l, scope, s, ts) && AllHold(m, l.next, os, ts.rho, ws)
    requires |m.target.stkOffset| == NUM_REGS && |s.regs| == NUM_REGS && |l.regs| == NUM_REGS
    requires BlockHas(m, ts.block, fin) && GenSetter(m.target, l, op, os).code <= fin.code
    ensures Sim(m, l0, ts0, GenSetter(m.target, l, op, os), scope, sem.Set(op, ws, s), ts')
  {
    hide Sim, Holds, AllHold, BlockHas, SetMLReg, Emit, GenRecordStore;
    var t, w := m.target, m.target.wordSzB;
    AllHoldAt(m, l.next, os, ts.rho, ws);
    match op
    case UPDATE =>
      var a := ws[0] + w * ws[1];
      var (l1, adr) := Emit(l, GepDyn(w), [os[0], os[1]]);
      var l2 := GenRecordStore(t, l1, adr);
      var ts1 := BinarySim(m, l0, ts0, l, GepDyn(w), os[0], ws[0], os[1], ws[1], a, scope, s, ts, fin);
      var ts2 := RecordStoreSim(sem, m, l0, ts0, l1, adr, a, scope, s, ts1, fin);
      ts' := StoreSim(m, l0, ts0, l2, w, adr, a, os[2], ws[2], scope, sem.RecordStore(a, s), ts2, fin);
    case ASSIGN =>
      var ts1 := RecordStoreSim(sem, m, l0, ts0, l, os[0], ws[0], scope, s, ts, fin);
      ts' := StoreSim(m, l0, ts0, GenRecordStore(t, l, os[0]), w, os[0], ws[0], os[1], ws[1], scope,
        sem.RecordStore(ws[0], s), ts1, fin);
    case RAW(o) => ts' := UpdateSim(m, l0, ts0, l, Poke(o), os, ws, sem.prims.poke(o, ws, s.mem), scope, s, ts, fin);
    case SET_HDLR => ts' := SetMLRegSim(m, l0, ts0, l, EXN_HNDLR, os[0], ws[0], scope, s, ts, fin);
    case SET_VAR => ts' := SetMLRegSim(m, l0, ts0, l, VAR_PTR, os[0], ws[0], scope, s, ts, fin);
  }

  lemma LimitSim(sem: Semantics, m: Machine, l0: Line, ts0: TState, l: Line, amt: nat, scope: set<LVar>, s: SState,
                 ts: TState, fin: Line)
    returns (ts': TState, v: Word)
    requires sem.prims == m.prims && sem.target == m.target
    requires Sim(m, l0, ts0, l, scope, s, ts)
    requires |m.target.stkOffset| == NUM_REGS && |s.regs| == NUM_REGS && |l.regs| == NUM_REGS
    requires BlockHas(m, ts.block, fin) && GenTest(m.target, l, LIMIT(amt), []).0.code <= fin.code
    ensures var (l', o) := GenTest(m.target, l, LIMIT(amt), []);
      Sim(m, l0, ts0, l', scope, s, ts') && Holds(m, l'.next, o, ts'.rho, v)
    ensures v != 0 <==> sem.Test(LIMIT(amt), [], s)
  {
    hide Sim, Holds, AllHold, BlockHas;
    var t, p, lim := m.target, s.regs[ALLOC_PTR], s.regs[LIMIT_PTR];
    var (l1, ptr) := MlReg(t, l, ALLOC_PTR);
    var ts1 := MlRegSim(m, l0, ts0, l, ALLOC_PTR, scope, s, ts, fin);
    if amt > t.allocSlopSzb {
      var extra := amt - t.allocSlopSzb;
      var q := sem.prims.pure(ADD_WORD, [p, extra]);
      var (l2, top) := Emit(l1, Pure(ADD_WORD), [ptr, Const(extra)]);
      var (l3, limit) := MlReg(t, l2, LIMIT_PTR);
      v := BoolWord(sem.prims.uGreater(q, lim));
      ConstHolds(m, l1.next, ts1.rho, extra);
      var ts2 := BinarySim(m, l0, ts0, l1, Pure(ADD_WORD), ptr, p, Const(extra), extra, q, scope, s, ts1, fin);
      var ts3 := MlRegSim(m, l0, ts0, l2, LIMIT_PTR, scope, s, ts2, fin);
      ts' := BinarySim(m, l0, ts0, l3, UGreater, top, q, limit, lim, v, scope, s, ts3, fin);
    } else {
      var (l3, limit) := MlReg(t, l1, LIMIT_PTR);
      v := BoolWord(sem.prims.uGreater(p, lim));
      var ts3 := MlRegSim(m, l0, ts0, l1, LIMIT_PTR, scope, s, ts1, fin);
      ts' := BinarySim(m, l0, ts0, l3, UGreater, ptr, p, limit, lim, v, scope, s, ts3, fin);
    }
  }

  /** A branch condition is a word that is nonzero exactly when the test holds. */
  lemma TestSim(sem: Semantics, m: Machine, l0: Line, ts0: TState, l: Line, op: BranchOp, os: seq<Operand>,
                ws: seq<Word>, scope: set<LVar>, s: SState, ts: TState, fin: Line)
    returns (ts': TState, v: Word)
    requires sem.prims == m.prims && sem.target == m.target && |os| == |ws|
    requires Sim(m, l0, ts0, l, scope, s, ts) && AllHold(m, l.next, os, ts.rho, ws)
    requires |m.target.stkOffset| == NUM_REGS && |s.regs| == NUM_REGS && |l.regs| == NUM_REGS
    requires BlockHas(m, ts.block, fin) && GenTest(m.target, l, op, os).0.code <= fin.code
    ensures var (l', o) := GenTest(m.target, l, op, os);
      Sim(m, l0, ts0, l', scope, s, ts') && Holds(m, l'.next, o, ts'.rho, v)
    ensures v != 0 <==> sem.Test(op, ws, s)
  {
    hide Sim, Holds, AllHold, BlockHas;
    match op
    case COMPARE(o) =>
      v := sem.prims.pure(o, ws);
      ts' := ComputeSim(m, l0, ts0, l, Pure(o), os, ws, v, scope, s, ts, fin);
    case LIMIT(amt) =>
      ts', v := LimitSim(sem, m, l0, ts0, l, amt, scope, s, ts, fin);
  }
}
