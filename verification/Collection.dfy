/** A garbage collection: the registers and roots handed over and taken back are the right ones. */
module Collection {
  import opened Common
  import opened CMRegisters
  import opened TargetIR
  import opened CFG
  import opened CodeBuilder
  import opened StraightLine

  /** The leading arguments of a call or jump are the machine registers, in convention order. */
  lemma RegArgsHold(m: Machine, n: nat, ops: seq<Option<Operand>>, regs: seq<Word>, rho: map<nat, Val>, frame: Frame,
                    kind: FragKind)
    requires RegsMatch(m, n, ops, regs, rho, frame) && kind != STD_CONT
    ensures AllHold(m, n, CreateArgs(m.target, ops, kind), rho, MachineWords(m.target, regs))
  {
    var t := m.target;
    var hw := MachineRegs(t);
    forall k | 0 <= k < |hw| ensures Holds(m, n, CreateArgs(t, ops, kind)[k], rho, MachineWords(t, regs)[k]) {
      TableIsSound(t, NUM_REGS, k);
      assert t.IsMachineReg(hw[k]);
    }
  }

  lemma AllHoldAppend(m: Machine, n: nat, os: seq<Operand>, ps: seq<Operand>, rho: map<nat, Val>, ws: seq<Word>,
                      vs: seq<Word>)
    requires AllHold(m, n, os, rho, ws) && AllHold(m, n, ps, rho, vs)
    ensures AllHold(m, n, os + ps, rho, ws + vs)
  {}

  /** The collector finds every register, wherever the target keeps it. */
  lemma GatherIsRegs(t: TargetInfo, regs: seq<Word>, rest: seq<Word>, frame: Frame)
    requires |t.stkOffset| == NUM_REGS && |regs| == NUM_REGS
    requires forall r: RegId :: !t.IsMachineReg(r) ==> t.stkOffset[r] in frame && frame[t.stkOffset[r]] == regs[r]
    ensures GatherRegs(t, MachineWords(t, regs) + rest, frame) == regs
  {
    var got := GatherRegs(t, MachineWords(t, regs) + rest, frame);
    forall r: RegId ensures got[r] == regs[r] {
      if t.IsMachineReg(r) {
        MachineIxIndexesTable(t, r);
      }
    }
  }

  lemma {:induction false} ScatterWrites(t: TargetInfo, regs: seq<Word>, frame: Frame, n: nat)
    requires ValidTarget(t) && |regs| == NUM_REGS && n <= NUM_REGS
    ensures var f := ScatterRegs(t, regs, frame, n);
      && (forall r: RegId :: r < n && !t.IsMachineReg(r) ==> t.stkOffset[r] in f && f[t.stkOffset[r]] == regs[r])
      && (forall a :: a in frame && (forall r: RegId :: !t.IsMachineReg(r) ==> t.stkOffset[r] != a) ==>
        a in f && f[a] == frame[a])
  {
    if n > 0 {
      ScatterWrites(t, regs, frame, n - 1);
    }
  }

  /** The source registers while the generated code is taking them back: stack registers are new at once,
      machine registers below n are new. */
  function PartlyNew(t: TargetInfo, old_: seq<Word>, new_: seq<Word>, n: nat): (rs: seq<Word>)
    requires |t.stkOffset| == NUM_REGS && |old_| == NUM_REGS && |new_| == NUM_REGS
    ensures |rs| == NUM_REGS
  {
    seq(NUM_REGS, r requires 0 <= r < NUM_REGS => if !t.IsMachineReg(r) || r < n then new_[r] else old_[r])
  }

  /** An operand naming a structure. */
  ghost predicate HoldsAgg(m: Machine, n: nat, o: Operand, rho: map<nat, Val>, vs: seq<Word>) {
    m.Ev(o, rho) == Some(Agg(vs)) && (o.Id? ==> o.id < n)
  }

  lemma ExtractSim(m: Machine, l0: Line, ts0: TState, l: Line, ix: nat, o: Operand, vs: seq<Word>, scope: set<LVar>,
                   s: SState, ts: TState, fin: Line) returns (ts': TState)
    requires Sim(m, l0, ts0, l, scope, s, ts) && HoldsAgg(m, l.next, o, ts.rho, vs) && ix < |vs|
    requires |l.regs| == NUM_REGS && BlockHas(m, ts.block, fin) && Emit(l, Extract(ix), [o]).0.code <= fin.code
    ensures var (l', o') := Emit(l, Extract(ix), [o]);
      Sim(m, l0, ts0, l', scope, s, ts') && ts'.block == ts.block
      && Holds(m, l'.next, o', ts'.rho, vs[ix]) && HoldsAgg(m, l'.next, o, ts'.rho, vs)
  {
    assert m.EvAll([o], ts.rho).value == [Agg(vs)];
    ts' := EmitRuns(m, l, Extract(ix), [o], [Agg(vs)], ts);
    var l' := Emit(l, Extract(ix), [o]).0;
    MatchesLater(m, l, l', scope, s, ts, ts');
    RunsTrans(m, l0, l, l', ts0, ts, ts');
  }

  lemma SetRegKeepsAgg(m: Machine, l0: Line, ts0: TState, l: Line, r: RegId, o: Operand, w: Word, a: Operand,
                       vs: seq<Word>, scope: set<LVar>, s: SState, ts: TState)
    returns (ts': TState)
    requires Sim(m, l0, ts0, l, scope, s, ts) && Holds(m, l.next, o, ts.rho, w) && HoldsAgg(m, l.next, a, ts.rho, vs)
    requires m.target.IsMachineReg(r)
    ensures var l' := SetMLReg(m.target, l, r, o);
      Sim(m, l0, ts0, l', scope, s.(regs := s.regs[r := w]), ts') && HoldsAgg(m, l'.next, a, ts'.rho, vs)
        && ts'.block == ts.block
  {
    ts' := ts;
  }

  lemma {:induction false} GCRegsSim(m: Machine, l0: Line, ts0: TState, l: Line, call: Operand, n: nat,
                                     old_: seq<Word>, new_: seq<Word>, rest: seq<Word>, scope: set<LVar>, s: SState,
                                     ts: TState, fin: Line) returns (ts': TState)
    requires |m.target.stkOffset| == NUM_REGS && |old_| == NUM_REGS && |new_| == NUM_REGS && n <= NUM_REGS
    requires s.regs == PartlyNew(m.target, old_, new_, 0)
    requires Sim(m, l0, ts0, l, scope, s, ts) && HoldsAgg(m, l.next, call, ts.rho, MachineWords(m.target, new_) + rest)
    requires |l.regs| == NUM_REGS && BlockHas(m, ts.block, fin) && GenGCRegs(m.target, l, call, n).code <= fin.code
    ensures var l' := GenGCRegs(m.target, l, call, n);
      && Sim(m, l0, ts0, l', scope, s.(regs := PartlyNew(m.target, old_, new_, n)), ts')
      && HoldsAgg(m, l'.next, call, ts'.rho, MachineWords(m.target, new_) + rest) && ts'.block == ts.block
      && l'.vMap == l.vMap
  {
    hide Sim, Holds, HoldsAgg, BlockHas;
    if n == 0 {
      ts' := ts;
    } else {
      var t := m.target;
      var vs := MachineWords(t, new_) + rest;
      var l1 := GenGCRegs(t, l, call, n - 1);
      var s1 := s.(regs := PartlyNew(t, old_, new_, n - 1));
      var ts1 := GCRegsSim(m, l0, ts0, l, call, n - 1, old_, new_, rest, scope, s, ts, fin);
      if t.IsMachineReg(n - 1) {
        MachineIxIndexesTable(t, n - 1);
        var ix := MachineIx(t, n - 1);
        var (l2, v) := Emit(l1, Extract(ix), [call]);
        var ts2 := ExtractSim(m, l0, ts0, l1, ix, call, vs, scope, s1, ts1, fin);
        ts' := SetRegKeepsAgg(m, l0, ts0, l2, n - 1, v, vs[ix], call, vs, scope, s1, ts2);
        assert s1.regs[n - 1 := vs[ix]] == PartlyNew(t, old_, new_, n);
      } else {
        ts' := ts1;
        assert s1.regs == PartlyNew(t, old_, new_, n);
      }
    }
  }

  /** Binding a variable the value map does not know yet. */
  lemma BindSim(m: Machine, l0: Line, ts0: TState, l: Line, x: LVar, o: Operand, w: Word, scope: set<LVar>, s: SState,
                ts: TState)
    requires Sim(m, l0, ts0, l, scope, s, ts) && Holds(m, l.next, o, ts.rho, w) && x !in l.vMap
    ensures Sim(m, l0, ts0, Bind(l, x, o), scope + {x}, s.(env := s.env[x := w]), ts)
  {}

  lemma {:induction false} GCRootsSim(m: Machine, l0: Line, ts0: TState, l: Line, call: Operand, xs: seq<LVar>,
                                      n: nat, regWords: seq<Word>, roots: seq<Word>, scope: set<LVar>, s: SState,
                                      ts: TState, fin: Line) returns (ts': TState)
    requires |m.target.stkOffset| == NUM_REGS && n <= |xs| <= |roots| && |regWords| == |MachineRegs(m.target)|
    requires NoDup(xs) && (forall x :: x in xs ==> x !in l.vMap)
    requires Sim(m, l0, ts0, l, scope, s, ts) && HoldsAgg(m, l.next, call, ts.rho, regWords + roots)
    requires |l.regs| == NUM_REGS && BlockHas(m, ts.block, fin) && GenGCRoots(m.target, l, call, xs, n).code <= fin.code
    ensures var l' := GenGCRoots(m.target, l, call, xs, n);
      && Sim(m, l0, ts0, l', scope + Elems(xs[..n]), s.(env := BindAll(s.env, xs, roots, n)), ts')
      && HoldsAgg(m, l'.next, call, ts'.rho, regWords + roots) && ts'.block == ts.block
      && l'.vMap.Keys == l.vMap.Keys + Elems(xs[..n])
  {
    hide Sim, Holds, HoldsAgg, BlockHas;
    if n == 0 {
      ts' := ts;
      assert scope + Elems(xs[..n]) == scope;
      assert l.vMap.Keys + Elems(xs[..n]) == l.vMap.Keys;
    } else {
      var t := m.target;
      var vs := regWords + roots;
      var l1 := GenGCRoots(t, l, call, xs, n - 1);
      var ix := |MachineRegs(t)| + n - 1;
      var (l2, v) := Emit(l1, Extract(ix), [call]);
      var s1 := s.(env := BindAll(s.env, xs, roots, n - 1));
      var scope1 := scope + Elems(xs[..n - 1]);
      var ts1 := GCRootsSim(m, l0, ts0, l, call, xs, n - 1, regWords, roots, scope, s, ts, fin);
      ts' := ExtractSim(m, l0, ts0, l1, ix, call, vs, scope1, s1, ts1, fin);
      assert xs[n - 1] in xs;
      assert xs[n - 1] !in l2.vMap;
      BindSim(m, l0, ts0, l2, xs[n - 1], v, roots[n - 1], scope1, s1, ts');
      assert xs[..n] == xs[..n - 1] + [xs[n - 1]];
      assert scope1 + {xs[n - 1]} == scope + Elems(xs[..n]);
    }
  }

  /** The operands of the call are the collector's entry, the machine registers and the roots. */
  lemma GCArgsHold(m: Machine, l: Line, fn: Operand, os: seq<Operand>, roots: seq<Word>, scope: set<LVar>, s: SState,
                   ts: TState)
    requires Matches(m, l, scope, s, ts) && Holds(m, l.next, fn, ts.rho, m.prims.callGC)
    requires AllHold(m, l.next, os, ts.rho, roots)
    ensures AllHold(m, l.next, [fn] + (CreateArgs(m.target, l.regs, STD_FUN) + os), ts.rho,
                    [m.prims.callGC] + (MachineWords(m.target, s.regs) + roots))
  {
    var args := CreateArgs(m.target, l.regs, STD_FUN);
    var mw := MachineWords(m.target, s.regs);
    RegArgsHold(m, l.next, l.regs, s.regs, ts.rho, ts.frame, STD_FUN);
    AllHoldAppend(m, l.next, args, os, ts.rho, mw, roots);
    AllHoldAppend(m, l.next, [fn], args + os, ts.rho, [m.prims.callGC], mw + roots);
  }

  /** The collector sees the source's registers and roots. */
  lemma GCEffect(m: Machine, regs: seq<Word>, roots: seq<Word>, mem: Mem, frame: Frame)
    requires Setting(m) && |regs| == NUM_REGS && |roots| == m.target.NumGCRoots()
    requires forall r: RegId :: !m.target.IsMachineReg(r) ==>
      m.target.stkOffset[r] in frame && frame[m.target.stkOffset[r]] == regs[r]
    ensures var r := m.prims.gc(regs, roots, mem);
      |r.regs| == NUM_REGS &&
      m.CollectGarbage([m.prims.callGC] + (MachineWords(m.target, regs) + roots), mem, frame) ==
        Next(Agg(MachineWords(m.target, r.regs) + r.roots), r.mem, ScatterRegs(m.target, r.regs, frame, NUM_REGS))
  {
    var mw := MachineWords(m.target, regs);
    var ws := [m.prims.callGC] + (mw + roots);
    assert ws[1..] == mw + roots;
    assert ws[1 + |MachineRegs(m.target)|..] == roots;
    GatherIsRegs(m.target, regs, roots, frame);
  }

  /** After the call the stack registers are new and the machine registers are still to be taken back. */
  lemma MatchesAfterGC(m: Machine, l: Line, l': Line, scope: set<LVar>, s: SState, ts: TState, ts': TState,
                       regs: seq<Word>, mem: Mem)
    requires Matches(m, l, scope, s, ts) && |regs| == NUM_REGS && |s.regs| == NUM_REGS
    requires Runs(m, l, l', ts, ts') && l'.vMap == l.vMap && l'.regs == l.regs
    requires ts'.mem == mem && ts'.frame == ScatterRegs(m.target, regs, ts.frame, NUM_REGS)
    ensures |m.target.stkOffset| == NUM_REGS
    ensures Matches(m, l', scope, SState(s.env, PartlyNew(m.target, s.regs, regs, 0), mem), ts')
  {
    FrameAfterGC(m, l, s, ts.rho, ts.frame, regs);
    RegsAfterGC(m, l, l', s, ts, ts', regs);
    hide RegsMatch, RuntimeIn, PartlyNew, ScatterRegs, Setting, Reach;
  }

  lemma FrameAfterGC(m: Machine, l: Line, s: SState, rho: map<nat, Val>, frame: Frame, regs: seq<Word>)
    requires Setting(m) && RuntimeIn(m, frame) && |regs| == NUM_REGS
    ensures |m.target.stkOffset| == NUM_REGS && RuntimeIn(m, ScatterRegs(m.target, regs, frame, NUM_REGS))
  {
    ScatterWrites(m.target, regs, frame, NUM_REGS);
  }

  lemma RegsAfterGC(m: Machine, l: Line, l': Line, s: SState, ts: TState, ts': TState, regs: seq<Word>)
    requires Setting(m) && RegsMatch(m, l.next, l.regs, s.regs, ts.rho, ts.frame) && |regs| == NUM_REGS
    requires l'.regs == l.regs
    requires l.next <= l'.next && Keeps(l.next, ts.rho, ts'.rho)
    requires ts'.frame == ScatterRegs(m.target, regs, ts.frame, NUM_REGS)
    ensures RegsMatch(m, l'.next, l'.regs, PartlyNew(m.target, s.regs, regs, 0), ts'.rho, ts'.frame)
  {
    ScatterWrites(m.target, regs, ts.frame, NUM_REGS);
  }

  /** The call leaves its results in the returned structure, the stack slots and the heap. */
  lemma CallSim(m: Machine, l0: Line, ts0: TState, l: Line, fn: Operand, os: seq<Operand>, roots: seq<Word>,
                scope: set<LVar>, s: SState, ts: TState, fin: Line) returns (ts': TState)
    requires Sim(m, l0, ts0, l, scope, s, ts) && |roots| == m.target.NumGCRoots()
    requires Holds(m, l.next, fn, ts.rho, m.prims.callGC) && AllHold(m, l.next, os, ts.rho, roots)
    requires |m.target.stkOffset| == NUM_REGS && |s.regs| == NUM_REGS && |l.regs| == NUM_REGS
    requires BlockHas(m, ts.block, fin)
    requires Emit(l, CallGC, [fn] + (CreateArgs(m.target, l.regs, STD_FUN) + os)).0.code <= fin.code
    ensures var r := m.prims.gc(s.regs, roots, s.mem);
      var (l', call) := Emit(l, CallGC, [fn] + (CreateArgs(m.target, l.regs, STD_FUN) + os));
      && |r.regs| == NUM_REGS
      && Sim(m, l0, ts0, l', scope, SState(s.env, PartlyNew(m.target, s.regs, r.regs, 0), r.mem), ts')
      && HoldsAgg(m, l'.next, call, ts'.rho, MachineWords(m.target, r.regs) + r.roots) && ts'.block == ts.block
  {
    var args := [fn] + (CreateArgs(m.target, l.regs, STD_FUN) + os);
    var ws := [m.prims.callGC] + (MachineWords(m.target, s.regs) + roots);
    var l' := Emit(l, CallGC, args).0;
    var r := m.prims.gc(s.regs, roots, s.mem);
    GCArgsHold(m, l, fn, os, roots, scope, s, ts);
    GCEffect(m, s.regs, roots, s.mem, ts.frame);
    EvAllHold(m, l.next, args, ts.rho, ws);
    hide AllHold, GatherRegs, ScatterRegs, MachineWords, RegsMatch, VarsMatch, CreateArgs, PartlyNew;
    assert m.Exec(CallGC, Vals(ws), ts.mem, ts.frame) == m.CollectGarbage(ws, ts.mem, ts.frame);
    ts' := EmitRuns(m, l, CallGC, args, Vals(ws), ts);
    MatchesAfterGC(m, l, l', scope, s, ts, ts', r.regs, r.mem);
    RunsTrans(m, l0, l, l', ts0, ts, ts');
  }

  lemma LoadSlotSim(m: Machine, l0: Line, ts0: TState, l: Line, off: int, w: Word, scope: set<LVar>, s: SState,
                    ts: TState, fin: Line)
    returns (ts': TState)
    requires Sim(m, l0, ts0, l, scope, s, ts) && off in ts.frame && ts.frame[off] == w
    requires |l.regs| == NUM_REGS && BlockHas(m, ts.block, fin) && Emit(l, LoadSlot(off), []).0.code <= fin.code
    ensures var (l', o) := Emit(l, LoadSlot(off), []);
      Sim(m, l0, ts0, l', scope, s, ts') && Later(m, l, ts, l', ts') && Holds(m, l'.next, o, ts'.rho, w)
  {
    ts' := EmitWord(m, l, LoadSlot(off), [], [], w, ts);
    var l' := Emit(l, LoadSlot(off), []).0;
    MatchesLater(m, l, l', scope, s, ts, ts');
    RunsTrans(m, l0, l, l', ts0, ts, ts');
    LaterByRuns(m, l, l', ts, ts');
  }

  lemma AllNew(t: TargetInfo, old_: seq<Word>, new_: seq<Word>)
    requires |t.stkOffset| == NUM_REGS && |old_| == NUM_REGS && |new_| == NUM_REGS
    ensures PartlyNew(t, old_, new_, NUM_REGS) == new_
  {}

  /** A collection in the generated code does to registers, roots and heap what the source's does. */
  lemma CollectSim(m: Machine, l0: Line, ts0: TState, l: Line, os: seq<Operand>, roots: seq<Word>, xs: seq<LVar>,
                   scope: set<LVar>, s: SState, ts: TState, fin: Line) returns (ts': TState)
    requires Setting(m) && Sim(m, l0, ts0, l, scope, s, ts) && AllHold(m, l.next, os, ts.rho, roots)
    requires |roots| == m.target.NumGCRoots() && |xs| <= |roots| && NoDup(xs) && (forall x :: x in xs ==> x !in l.vMap)
    requires |s.regs| == NUM_REGS && |l.regs| == NUM_REGS && RuntimeIn(m, ts.frame)
    requires BlockHas(m, ts.block, fin)
    requires GenCallGC(m.target, l, CreateArgs(m.target, l.regs, STD_FUN) + os, xs).code <= fin.code
    ensures var r := m.prims.gc(s.regs, roots, s.mem);
      var l' := GenCallGC(m.target, l, CreateArgs(m.target, l.regs, STD_FUN) + os, xs);
      && |r.regs| == NUM_REGS && |r.roots| == |roots|
      && Sim(m, l0, ts0, l', scope + Elems(xs), SState(BindAll(s.env, xs, r.roots, |xs|), r.regs, r.mem), ts')
  {
    hide Sim, Holds, AllHold, HoldsAgg, BlockHas, CreateArgs;
    var t := m.target;
    var args := CreateArgs(t, l.regs, STD_FUN) + os;
    var (l1, fn) := Emit(l, LoadSlot(t.callGCOffset), []);
    var (l2, call) := Emit(l1, CallGC, [fn] + args);
    var l3 := GenGCRegs(t, l2, call, NUM_REGS);
    var r := m.prims.gc(s.regs, roots, s.mem);
    var ts1 := LoadSlotSim(m, l0, ts0, l, t.callGCOffset, m.prims.callGC, scope, s, ts, fin);
    var ts2 := CallSim(m, l0, ts0, l1, fn, os, roots, scope, s, ts1, fin);
    var s2 := SState(s.env, PartlyNew(t, s.regs, r.regs, 0), r.mem);
    var ts3 := GCRegsSim(m, l0, ts0, l2, call, NUM_REGS, s.regs, r.regs, r.roots, scope, s2, ts2, fin);
    AllNew(t, s.regs, r.regs);
    ts' := GCRootsSim(m, l0, ts0, l3, call, xs, |xs|, MachineWords(t, r.regs), r.roots, scope,
      SState(s.env, r.regs, r.mem), ts3, fin);
    assert xs[..|xs|] == xs;
  }
}
