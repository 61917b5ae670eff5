/** Control transfers: what happens on the edges between blocks. */
module Control {
  import opened Common
  import opened CMRegisters
  import opened TargetIR
  import opened CFG
  import opened CodeBuilder
  import opened StraightLine
  import opened Collection
  import opened Growth
  import opened Phis
  import opened Simulation

  /** Some positive number of steps leads to r. */
  ghost predicate Leads(m: Machine, ts: TState, r: Result) {
    exists k: nat :: k > 0 && m.Steps(k, ts) == r
  }

  lemma ReachLeads(m: Machine, a: TState, b: TState, r: Result)
    requires Reach(m, a, b) && Leads(m, b, r)
    ensures Leads(m, a, r)
  {
    var j: nat :| m.Steps(j, a) == Running(b);
    var k: nat :| k > 0 && m.Steps(k, b) == r;
    m.StepsCompose(j, k, a);
    assert m.Steps(j + k, a) == r;
  }

  lemma StepLeads(m: Machine, ts: TState)
    ensures Leads(m, ts, m.Step(ts))
  {
    assert m.Steps(1, ts) == match m.Step(ts) case Running(ts') => m.Steps(0, ts') case r => r;
  }

  lemma LeadsTrans(m: Machine, a: TState, b: TState, r: Result)
    requires Leads(m, a, Running(b)) && Leads(m, b, r)
    ensures Leads(m, a, r)
  {
    var j: nat :| j > 0 && m.Steps(j, a) == Running(b);
    ReachLeads(m, a, b, r) by { assert m.Steps(j, a) == Running(b); }
  }

  /** What a line knows of a state is independent of where in the function the state is. */
  ghost predicate MatchesIn(m: Machine, next: nat, vMap: map<LVar, Operand>, regs: seq<Option<Operand>>,
                            scope: set<LVar>, s: SState, ts: TState) {
    && Setting(m)
    && VarsMatch(m, next, vMap, scope, s.env, ts.rho)
    && RegsMatch(m, next, regs, s.regs, ts.rho, ts.frame)
    && ts.mem == s.mem
    && RuntimeIn(m, ts.frame)
  }

  /** The insertion block of st is complete in the machine's code, with the given terminator. */
  ghost predicate SealedWith(m: Machine, b: nat, code: seq<Instr>, term: Term) {
    b < |m.blocks| && m.blocks[b].body == code && m.blocks[b].term == Some(term)
  }

  /** Entering a block without phis changes only the position. */
  lemma EnterPlain(m: Machine, ts: TState, dst: nat)
    requires dst < |m.blocks| && m.blocks[dst].phis == []
    ensures m.Enter(ts, dst) == Running(ts.(block := dst, ix := 0))
  {
    assert m.EvPhis([], ts.block, ts.rho) == Some([]);
  }

  lemma {:induction false} AssignGives(phis: seq<Phi>, vs: seq<Val>, rho: map<nat, Val>)
    requires |phis| == |vs| && DistinctPhis(phis)
    ensures var rho' := Machine.Assign(phis, vs, rho);
      forall i :: 0 <= i < |phis| ==> phis[i].dst in rho' && rho'[phis[i].dst] == vs[i]
  {
    if phis != [] {
      AssignGives(phis[..|phis| - 1], vs[..|vs| - 1], rho);
    }
  }

  /** Entering a block whose phis choose operands that hold words assigns those words. */
  lemma EnterPhis(m: Machine, n: nat, ts: TState, dst: nat, ops: seq<Operand>, ws: seq<Word>)
    requires dst < |m.blocks| && DistinctPhis(m.blocks[dst].phis) && |m.blocks[dst].phis| == |ops|
    requires forall i :: 0 <= i < |ops| ==> Machine.Choose(m.blocks[dst].phis[i].incoming, ts.block) == ops[i]
    requires AllHold(m, n, ops, ts.rho, ws)
    ensures var phis := m.blocks[dst].phis; var r := m.Enter(ts, dst);
      && r.Running? && r.state == ts.(block := dst, ix := 0, rho := r.state.rho)
      && forall i :: 0 <= i < |phis| ==> phis[i].dst in r.state.rho && r.state.rho[phis[i].dst] == W(ws[i])
  {
    var phis := m.blocks[dst].phis;
    EvAllHold(m, n, ops, ts.rho, ws);
    assert seq(|phis|, i requires 0 <= i < |phis| => Machine.Choose(phis[i].incoming, ts.block)) == ops;
    AssignGives(phis, Vals(ws), ts.rho);
    assert forall i :: 0 <= i < |ws| ==> Vals(ws)[i] == W(ws[i]);
  }

  lemma {:induction false} ChooseAdded(incoming: seq<(nat, Operand)>, pred: nat, o: Operand, all: seq<(nat, Operand)>)
    requires forall j :: 0 <= j < |incoming| ==> incoming[j].0 != pred
    requires incoming + [(pred, o)] <= all
    ensures Machine.Choose(all, pred) == o
  {
    if incoming == [] {
      assert all[0] == (pred, o);
    } else {
      assert all[0] == incoming[0];
      ChooseAdded(incoming[1..], pred, o, all[1..]);
    }
  }

  /** The value a phi gets on an edge is the one that was added for it. */
  lemma ChosenOnEdge(st: Builder, b: nat, args: seq<Operand>, bs: seq<Block>)
    requires b < |st.blocks| && |args| == |st.blocks[b].phis| && NoEdgeFrom(st.blocks, st.cur)
    requires BlocksGrow(AddIncoming(st, b, args).blocks, bs)
    ensures |bs[b].phis| == |args|
    ensures forall i :: 0 <= i < |args| ==> Machine.Choose(bs[b].phis[i].incoming, st.cur) == args[i]
  {
    var st' := AddIncoming(st, b, args);
    assert BlockGrows(st'.blocks[b], bs[b]);
    forall i | 0 <= i < |args| ensures Machine.Choose(bs[b].phis[i].incoming, st.cur) == args[i] {
      ChooseAdded(st.blocks[b].phis[i].incoming, st.cur, args[i], bs[b].phis[i].incoming);
    }
  }

  // ----- leaving a fragment -----

  /** At the start of a fragment's block: phis hold the machine registers, then the parameters. */
  ghost predicate AtFrag(m: Machine, b: nat, args: seq<Word>, regs: seq<Word>, mem: Mem, ts: TState) {
    && |m.target.stkOffset| == NUM_REGS && |regs| == NUM_REGS
    && b < |m.blocks| && ts.block == b && ts.ix == 0
    && |m.blocks[b].phis| == |MachineRegs(m.target)| + |args|
    && (forall i :: 0 <= i < |m.blocks[b].phis| ==> var d := m.blocks[b].phis[i].dst;
          d in ts.rho && ts.rho[d] == W((MachineWords(m.target, regs) + args)[i]))
    && ts.mem == mem && SlotsHold(m, regs, ts.frame) && RuntimeIn(m, ts.frame)
  }

  ghost predicate SlotsHold(m: Machine, regs: seq<Word>, frame: Frame) {
    && |m.target.stkOffset| == NUM_REGS && |regs| == NUM_REGS
    && forall r: RegId :: !m.target.IsMachineReg(r) ==>
         m.target.stkOffset[r] in frame && frame[m.target.stkOffset[r]] == regs[r]
  }

  /** The arguments of a call: machine registers, unused positions, then the user's arguments. */
  function ConventionArgs(t: TargetInfo, kind: FragKind, args: seq<Word>, regs: seq<Word>): seq<Val>
    requires |t.stkOffset| == NUM_REGS && |regs| == NUM_REGS
  {
    Vals(MachineWords(t, regs)) + seq(NumUnused(kind), _ => Undefined) + Vals(args)
  }

  /** The target's way of leaving a fragment is the source's. */
  ghost predicate Agrees(m: Machine, frags: map<LVar, nat>, o: Outcome, r: Result) {
    match o
    case Jump(lab, args, regs, mem) => lab in frags && r.Running? && AtFrag(m, frags[lab], args, regs, mem, r.state)
    case Call(fn, kind, args, regs, mem) =>
      && r.Exited? && SlotsHold(m, regs, r.exit.frame) && RuntimeIn(m, r.exit.frame)
      && r.exit == TailCalled(W(fn), ConventionArgs(m.target, kind, args, regs), mem, r.exit.frame)
    case Overflow(regs, mem) =>
      && r.Exited? && SlotsHold(m, regs, r.exit.frame) && RuntimeIn(m, r.exit.frame)
      && r.exit == Raised(W(m.prims.raiseOverflow), Vals(MachineWords(m.target, regs)), mem, r.exit.frame)
    case Stuck => true
  }

  /** A jump arrives at its fragment with the source's registers and arguments. */
  lemma JumpArrives(m: Machine, st: Builder, lab: LVar, os: seq<Operand>, ws: seq<Word>, scope: set<LVar>, s: SState,
                    ts: TState)
    requires Open(st) && NoEdgeFrom(st.blocks, st.cur) && lab in st.frags && st.frags[lab] < |st.blocks|
    requires Matches(m, st.OpenLine(), scope, s, ts) && ts.block == st.cur && AllHold(m, st.next, os, ts.rho, ws)
    requires var b := st.frags[lab];
      |st.blocks[b].phis| == |MachineRegs(m.target)| + |os| && b < |m.blocks| && DistinctPhis(m.blocks[b].phis)
    requires BlocksGrow(SealJump(st, lab, CreateArgs(m.target, st.regs, INTERNAL) + os).blocks, m.blocks)
    ensures Leads(m, ts, m.Step(ts)) && m.Step(ts).Running?
    ensures AtFrag(m, st.frags[lab], ws, s.regs, s.mem, m.Step(ts).state)
  {
    var b := st.frags[lab];
    var args := CreateArgs(m.target, st.regs, INTERNAL) + os;
    var mw := MachineWords(m.target, s.regs);
    RegArgsHold(m, st.next, st.regs, s.regs, ts.rho, ts.frame, INTERNAL);
    AllHoldAppend(m, st.next, CreateArgs(m.target, st.regs, INTERNAL), os, ts.rho, mw, ws);
    var st1 := AddIncoming(st, b, args);
    AddIncomingGrows(st, b, args);
    SealGrows(st1, Br(b));
    BlocksGrowTrans(st1.blocks, Seal(st1, Br(b)).blocks, m.blocks);
    ChosenOnEdge(st, b, args, m.blocks);
    assert BlockGrows(Seal(st1, Br(b)).blocks[st.cur], m.blocks[st.cur]);
    EnterPhis(m, st.next, ts, b, args, mw + ws);
    StepLeads(m, ts);
  }

  /** The tail call passes the source's registers and arguments in the positions of the convention. */
  lemma CallLeaves(m: Machine, l: Line, f: Operand, fn: Word, kind: FragKind, os: seq<Operand>, ws: seq<Word>,
                   scope: set<LVar>, s: SState, ts: TState)
    requires Matches(m, l, scope, s, ts) && Holds(m, l.next, f, ts.rho, fn) && AllHold(m, l.next, os, ts.rho, ws)
    requires BlockHas(m, ts.block, Emit(l, TailCall, [f] + CreateArgs(m.target, l.regs, kind) + os).0)
    ensures Leads(m, ts, m.Step(ts))
    ensures m.Step(ts) == Exited(TailCalled(W(fn), ConventionArgs(m.target, kind, ws, s.regs), s.mem, ts.frame))
    ensures SlotsHold(m, s.regs, ts.frame) && RuntimeIn(m, ts.frame)
  {
    var t := m.target;
    var all := [f] + CreateArgs(t, l.regs, kind) + os;
    var vals := [W(fn)] + ConventionArgs(t, kind, ws, s.regs);
    CallArgsHold(m, l.next, l.regs, f, fn, kind, os, ws, s.regs, ts.rho, ts.frame);
    assert vals[1..] == ConventionArgs(t, kind, ws, s.regs);
    var l' := Emit(l, TailCall, all).0;
    assert m.blocks[ts.block].body[ts.ix] == l'.code[ts.ix] == Instr(l.next, TailCall, all);
    hide ConventionArgs, CreateArgs;
    StepLeads(m, ts);
  }

  lemma CallArgsHold(m: Machine, n: nat, regOps: seq<Option<Operand>>, f: Operand, fn: Word, kind: FragKind,
                     os: seq<Operand>, ws: seq<Word>, regs: seq<Word>, rho: map<nat, Val>, frame: Frame)
    requires RegsMatch(m, n, regOps, regs, rho, frame) && Holds(m, n, f, rho, fn) && AllHold(m, n, os, rho, ws)
    ensures m.EvAll([f] + CreateArgs(m.target, regOps, kind) + os, rho)
      == Some([W(fn)] + ConventionArgs(m.target, kind, ws, regs))
  {
    var t := m.target;
    var all := [f] + CreateArgs(t, regOps, kind) + os;
    var vals := [W(fn)] + ConventionArgs(t, kind, ws, regs);
    var hw, unused := |MachineRegs(t)|, NumUnused(kind);
    RegArgsHold(m, n, regOps, regs, rho, frame, INTERNAL);
    forall i | 0 <= i < |all| ensures m.Ev(all[i], rho) == Some(vals[i]) {
      if i == 0 {
      } else if i < 1 + hw {
        assert all[i] == CreateArgs(t, regOps, INTERNAL)[i - 1];
        assert Holds(m, n, all[i], rho, MachineWords(t, regs)[i - 1]);
      } else if i < 1 + hw + unused {
        assert all[i] == Undef && vals[i] == Undefined;
      } else {
        assert all[i] == os[i - 1 - hw - unused] && vals[i] == W(ws[i - 1 - hw - unused]);
        assert Holds(m, n, all[i], rho, ws[i - 1 - hw - unused]);
      }
    }
    assert m.EvAll(all, rho).value == vals;
  }

  // ----- overflow -----

  /** From the overflow block control leaves to the overflow handler with the phis' values. */
  lemma {:induction false} OverflowRaises(m: Machine, n: nat, ts: TState, regs: seq<Word>)
    requires |m.target.stkOffset| == NUM_REGS && ts.block < |m.blocks|
    requires OverflowBlockFrom(m.target, n, m.blocks[ts.block])
    requires ts.ix == 0 && RuntimeIn(m, ts.frame) && |regs| == NUM_REGS
    requires var phis := m.blocks[ts.block].phis;
      forall i :: 0 <= i < |phis| ==> phis[i].dst in ts.rho && ts.rho[phis[i].dst] == W(MachineWords(m.target, regs)[i])
    ensures Leads(m, ts, Exited(Raised(W(m.prims.raiseOverflow), Vals(MachineWords(m.target, regs)), ts.mem, ts.frame)))
  {
    var k := |MachineRegs(m.target)|;
    var blk := m.blocks[ts.block];
    assert m.EvAll([], ts.rho) == Some([]);
    var ts1 := TState(ts.block, 1, ts.rho[n + k := W(m.prims.raiseOverflow)], ts.mem, ts.frame);
    assert m.Step(ts) == Running(ts1);
    StepLeads(m, ts);
    var args := blk.body[1].args;
    var vals := [W(m.prims.raiseOverflow)] + Vals(MachineWords(m.target, regs));
    forall i | 0 <= i < |args| ensures m.Ev(args[i], ts1.rho) == Some(vals[i]) {
      if i > 0 {
        assert args[i] == Id(n + (i - 1));
        assert blk.phis[i - 1].dst == OverflowBlock(m.target, n).phis[i - 1].dst == n + (i - 1);
      }
    }
    assert m.EvAll(args, ts1.rho).value == vals;
    assert vals[1..] == Vals(MachineWords(m.target, regs));
    StepLeads(m, ts1);
    LeadsTrans(m, ts, ts1, m.Step(ts1));
  }

  /** The pair a trapping operation yields, taken apart. */
  lemma TrapSim(sem: Semantics, m: Machine, l: Line, op: nat, os: seq<Operand>, ws: seq<Word>, scope: set<LVar>,
                s: SState, ts0: TState, l0: Line, ts: TState, fin: Line)
    returns (ts': TState)
    requires sem.prims == m.prims
    requires Sim(m, l0, ts0, l, scope, s, ts) && AllHold(m, l.next, os, ts.rho, ws)
    requires |l.regs| == NUM_REGS && BlockHas(m, ts.block, fin) && GenTrap(l, op, os).0.code <= fin.code
    ensures var (l', res, obit) := GenTrap(l, op, os); var (v, trapped) := m.prims.arith(op, ws);
      && Sim(m, l0, ts0, l', scope, s, ts') && ts'.block == ts.block
      && Holds(m, l'.next, res, ts'.rho, v) && Holds(m, l'.next, obit, ts'.rho, BoolWord(trapped))
  {
    var (l1, pair) := Emit(l, Arith(op), os);
    var (l2, res) := Emit(l1, Extract(0), [pair]);
    var (l3, obit) := Emit(l2, Extract(1), [pair]);
    var (v, trapped) := m.prims.arith(op, ws);
    var vs := [v, BoolWord(trapped)];
    assert l1.code <= fin.code && l2.code <= fin.code && l3.code <= fin.code;
    hide Sim, Holds, AllHold, HoldsAgg, BlockHas, Emit;
    var ts1 := ArithSim(m, l0, ts0, l, op, os, ws, scope, s, ts, fin);
    var ts2 := ExtractSim(m, l0, ts0, l1, 0, pair, vs, scope, s, ts1, fin);
    ts' := ExtractKeeps(m, l0, ts0, l2, 1, pair, vs, res, v, scope, s, ts2, fin);
  }

  lemma ArithSim(m: Machine, l0: Line, ts0: TState, l: Line, op: nat, os: seq<Operand>, ws: seq<Word>,
                 scope: set<LVar>, s: SState, ts: TState, fin: Line)
    returns (ts': TState)
    requires Sim(m, l0, ts0, l, scope, s, ts) && AllHold(m, l.next, os, ts.rho, ws)
    requires |l.regs| == NUM_REGS && BlockHas(m, ts.block, fin) && Emit(l, Arith(op), os).0.code <= fin.code
    ensures var (l', o) := Emit(l, Arith(op), os); var (v, trapped) := m.prims.arith(op, ws);
      Sim(m, l0, ts0, l', scope, s, ts') && ts'.block == ts.block
        && HoldsAgg(m, l'.next, o, ts'.rho, [v, BoolWord(trapped)])
  {
    var l' := Emit(l, Arith(op), os).0;
    EvAllHold(m, l.next, os, ts.rho, ws);
    ts' := EmitRuns(m, l, Arith(op), os, Vals(ws), ts);
    MatchesLater(m, l, l', scope, s, ts, ts');
    RunsTrans(m, l0, l, l', ts0, ts, ts');
  }

  /** Taking a field of a structure keeps what another operand holds. */
  lemma ExtractKeeps(m: Machine, l0: Line, ts0: TState, l: Line, ix: nat, o: Operand, vs: seq<Word>, p: Operand,
                     w: Word, scope: set<LVar>, s: SState, ts: TState, fin: Line) returns (ts': TState)
    requires Sim(m, l0, ts0, l, scope, s, ts) && HoldsAgg(m, l.next, o, ts.rho, vs) && ix < |vs|
    requires Holds(m, l.next, p, ts.rho, w)
    requires |l.regs| == NUM_REGS && BlockHas(m, ts.block, fin) && Emit(l, Extract(ix), [o]).0.code <= fin.code
    ensures var (l', o') := Emit(l, Extract(ix), [o]);
      Sim(m, l0, ts0, l', scope, s, ts') && ts'.block == ts.block
      && Holds(m, l'.next, o', ts'.rho, vs[ix]) && Holds(m, l'.next, p, ts'.rho, w)
  {
    assert m.EvAll([o], ts.rho).value == [Agg(vs)];
    ts' := EmitRuns(m, l, Extract(ix), [o], [Agg(vs)], ts);
    var l' := Emit(l, Extract(ix), [o]).0;
    MatchesLater(m, l, l', scope, s, ts, ts');
    RunsTrans(m, l0, l, l', ts0, ts, ts');
  }
}
