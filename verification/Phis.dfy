/** Phis and edges match: at every moment each phi has, for every block, as many incoming values from it
    as that block has edges to the phi's block. */
module Phis {
  import opened Common
  import opened CMRegisters
  import opened TargetIR
  import opened CFG
  import opened CodeBuilder
  import opened Growth

  ghost predicate DistinctPhis(phis: seq<Phi>) {
    forall i, j :: 0 <= i < j < |phis| ==> phis[i].dst != phis[j].dst
  }

  /** No phi has a value for the edge from block p yet. */
  ghost predicate NoEdgeFrom(bs: seq<Block>, p: nat) {
    forall b, i, j :: 0 <= b < |bs| && 0 <= i < |bs[b].phis| && 0 <= j < |bs[b].phis[i].incoming| ==>
      bs[b].phis[i].incoming[j].0 != p
  }

  /** The overflow block, whatever its phis have been given. */
  ghost predicate IsOverflowBlock(t: TargetInfo, blk: Block) {
    |t.stkOffset| == NUM_REGS && exists n :: OverflowBlockFrom(t, n, blk)
  }

  ghost predicate OverflowBlockFrom(t: TargetInfo, n: nat, blk: Block)
    requires |t.stkOffset| == NUM_REGS
  {
    var o := OverflowBlock(t, n);
    && blk.body == o.body && blk.term == o.term && |blk.phis| == |o.phis|
    && forall i :: 0 <= i < |o.phis| ==> blk.phis[i].dst == o.phis[i].dst
  }

  function Succs(term: Option<Term>): seq<nat> {
    match term
    case None => []
    case Some(Br(d)) => [d]
    case Some(CondBr(_, a, b)) => [a, b]
    case Some(Switch(_, d, cases)) => [d] + cases
    case Some(RetVoid) => []
    case Some(Unreachable) => []
  }

  /** The number of edges from block p to block b. */
  function Edges(bs: seq<Block>, p: nat, b: nat): nat {
    if p < |bs| then multiset(Succs(bs[p].term))[b] else 0
  }

  function Preds(incoming: seq<(nat, Operand)>): multiset<nat> {
    multiset(seq(|incoming|, j requires 0 <= j < |incoming| => incoming[j].0))
  }

  lemma PredsSnoc(incoming: seq<(nat, Operand)>, p: nat, o: Operand)
    ensures Preds(incoming + [(p, o)]) == Preds(incoming) + multiset{p}
  {
    var all := incoming + [(p, o)];
    assert seq(|all|, j requires 0 <= j < |all| => all[j].0)
      == seq(|incoming|, j requires 0 <= j < |incoming| => incoming[j].0) + [p];
  }

  ghost predicate PhisExact(bs: seq<Block>) {
    forall b, i :: 0 <= b < |bs| && 0 <= i < |bs[b].phis| ==>
      forall p: nat :: Preds(bs[b].phis[i].incoming)[p] == Edges(bs, p, b)
  }

  ghost predicate EdgesInside(bs: seq<Block>) {
    forall p :: 0 <= p < |bs| ==> forall d :: d in Succs(bs[p].term) ==> d < |bs|
  }

  /** The blocks control is passed to with arguments have the phis those arguments need. */
  ghost predicate Receives(c: Context, st: Builder) {
    && |c.target.stkOffset| == NUM_REGS
    && (st.ovf.Some? ==> st.ovf.value < |st.blocks| && IsOverflowBlock(c.target, st.blocks[st.ovf.value]))
    && (forall lab :: lab in c.arity ==>
          && lab in st.frags && st.frags[lab] < |st.blocks|
          && |st.blocks[st.frags[lab]].phis| == |MachineRegs(c.target)| + c.arity[lab]
          && DistinctPhis(st.blocks[st.frags[lab]].phis))
  }

  ghost predicate WellPhied(c: Context, st: Builder) {
    PhisExact(st.blocks) && EdgesInside(st.blocks) && Receives(c, st)
  }

  /** A block that is still open feeds no phi. */
  lemma OpenHasNoEdges(st: Builder)
    requires Open(st) && PhisExact(st.blocks)
    ensures NoEdgeFrom(st.blocks, st.cur)
  {
    forall b, i, j | 0 <= b < |st.blocks| && 0 <= i < |st.blocks[b].phis| && 0 <= j < |st.blocks[b].phis[i].incoming|
      ensures st.blocks[b].phis[i].incoming[j].0 != st.cur
    {
      var incoming := st.blocks[b].phis[i].incoming;
      var ps := seq(|incoming|, j requires 0 <= j < |incoming| => incoming[j].0);
      assert ps[j] in multiset(ps);
      assert Edges(st.blocks, st.cur, b) == 0;
      assert Preds(incoming)[st.cur] == Edges(st.blocks, st.cur, b);
    }
  }

  lemma ReceivesGrows(c: Context, st: Builder, st': Builder, own: set<nat>)
    requires Receives(c, st) && Linked(st) && Grows(st, st', own) && (st.ovf.None? ==> st'.ovf.None?)
    ensures Receives(c, st')
  {
    if st.ovf.Some? {
      var b := st.ovf.value;
      assert BlockGrows(st.blocks[b], st'.blocks[b]);
      var n :| OverflowBlockFrom(c.target, n, st.blocks[b]);
      assert OverflowBlockFrom(c.target, n, st'.blocks[b]);
    }
    forall lab | lab in c.arity ensures DistinctPhis(st'.blocks[st.frags[lab]].phis) &&
      |st'.blocks[st.frags[lab]].phis| == |MachineRegs(c.target)| + c.arity[lab]
    {
      assert BlockGrows(st.blocks[st.frags[lab]], st'.blocks[st.frags[lab]]);
    }
  }

  // ----- one change at a time -----

  /** Changes that leave phis and terminators alone. */
  lemma SameEdges(bs: seq<Block>, cs: seq<Block>)
    requires PhisExact(bs) && EdgesInside(bs) && |bs| == |cs|
    requires forall b :: 0 <= b < |bs| ==> bs[b].phis == cs[b].phis && bs[b].term == cs[b].term
    ensures PhisExact(cs) && EdgesInside(cs)
  {
    forall b, i | 0 <= b < |cs| && 0 <= i < |cs[b].phis|
      ensures forall p: nat :: Preds(cs[b].phis[i].incoming)[p] == Edges(cs, p, b)
    {
      forall p: nat ensures Preds(cs[b].phis[i].incoming)[p] == Edges(cs, p, b) {
        assert Preds(bs[b].phis[i].incoming)[p] == Edges(bs, p, b);
      }
    }
  }

  /** A new block without edges and without incoming values. */
  lemma AppendEdges(bs: seq<Block>, blk: Block)
    requires PhisExact(bs) && EdgesInside(bs) && Succs(blk.term) == []
    requires forall i :: 0 <= i < |blk.phis| ==> blk.phis[i].incoming == []
    ensures PhisExact(bs + [blk]) && EdgesInside(bs + [blk])
  {
    var cs := bs + [blk];
    forall b, i | 0 <= b < |cs| && 0 <= i < |cs[b].phis|
      ensures forall p: nat :: Preds(cs[b].phis[i].incoming)[p] == Edges(cs, p, b)
    {
      forall p: nat ensures Preds(cs[b].phis[i].incoming)[p] == Edges(cs, p, b) {
        if b < |bs| {
          assert Preds(bs[b].phis[i].incoming)[p] == Edges(bs, p, b);
        } else {
          assert p < |bs| ==> b !in Succs(bs[p].term);
        }
      }
    }
  }

  /** The terminator of an open block and the phis of the one successor that has any. */
  ghost predicate Finishing(bs: seq<Block>, p: nat, term: Term, dst: Option<nat>, args: seq<Operand>) {
    && p < |bs| && bs[p].term.None?
    && (forall d :: d in Succs(Some(term)) ==> d < |bs|)
    && (forall d :: d in Succs(Some(term)) && Some(d) != dst ==> bs[d].phis == [])
    && (dst.Some? ==> dst.value < |bs| && multiset(Succs(Some(term)))[dst.value] == 1 && |args| >= |bs[dst.value].phis|)
  }

  function WithIncoming(bs: seq<Block>, p: nat, dst: Option<nat>, args: seq<Operand>): (cs: seq<Block>)
    requires dst.Some? ==> dst.value < |bs|
    ensures |cs| == |bs|
  {
    if dst.Some? then bs[dst.value := bs[dst.value].(phis := AddToPhis(bs[dst.value].phis, p, args))] else bs
  }

  lemma FinishOne(bs: seq<Block>, p: nat, term: Term, dst: Option<nat>, args: seq<Operand>, b: nat, i: nat, q: nat)
    requires Finishing(bs, p, term, dst, args) && b < |bs| && i < |bs[b].phis|
    requires Preds(bs[b].phis[i].incoming)[q] == Edges(bs, q, b)
    ensures var cs := WithIncoming(bs, p, dst, args);
      |cs[b].phis| == |bs[b].phis|
        && Preds(cs[b].phis[i].incoming)[q] == Edges(cs[p := cs[p].(term := Some(term))], q, b)
  {
    if dst == Some(b) {
      PredsSnoc(bs[b].phis[i].incoming, p, args[i]);
    } else {
      assert b !in Succs(Some(term));
    }
  }

  /** Finishing an open block whose successors have no phis, after giving every phi of one further successor
      a value for the new edge. */
  lemma FinishEdges(bs: seq<Block>, p: nat, term: Term, dst: Option<nat>, args: seq<Operand>)
    requires PhisExact(bs) && EdgesInside(bs) && Finishing(bs, p, term, dst, args)
    ensures var cs := WithIncoming(bs, p, dst, args);
      PhisExact(cs[p := cs[p].(term := Some(term))]) && EdgesInside(cs[p := cs[p].(term := Some(term))])
  {
    var cs := WithIncoming(bs, p, dst, args);
    var ds := cs[p := cs[p].(term := Some(term))];
    forall b, i | 0 <= b < |ds| && 0 <= i < |ds[b].phis|
      ensures forall q: nat :: Preds(ds[b].phis[i].incoming)[q] == Edges(ds, q, b)
    {
      hide Preds, Edges, Succs;
      forall q: nat ensures Preds(ds[b].phis[i].incoming)[q] == Edges(ds, q, b) {
        FinishOne(bs, p, term, dst, args, b, i, q);
      }
    }
  }

  // ----- one builder operation at a time -----

  lemma PutPhis(c: Context, st: Builder, l: Line)
    requires WellPhied(c, st) && Open(st) && Linked(st) && Continues(st.OpenLine(), l)
    ensures WellPhied(c, st.Put(l))
  {
    PutGrows(st, l);
    SameEdges(st.blocks, st.Put(l).blocks);
    ReceivesGrows(c, st, st.Put(l), {st.cur});
  }

  lemma SealPhis(c: Context, st: Builder, term: Term)
    requires WellPhied(c, st) && Open(st) && Linked(st)
    requires forall d :: d in Succs(Some(term)) ==> d < |st.blocks| && st.blocks[d].phis == []
    ensures WellPhied(c, Seal(st, term))
  {
    SealGrows(st, term);
    FinishEdges(st.blocks, st.cur, term, None, []);
    ReceivesGrows(c, st, Seal(st, term), {st.cur});
  }

  lemma AppendPhis(c: Context, st: Builder, blk: Block)
    requires WellPhied(c, st) && st.Ok() && Linked(st) && Succs(blk.term) == [] && blk.phis == []
    ensures WellPhied(c, st.(blocks := st.blocks + [blk]))
  {
    AppendGrows(st, blk);
    AppendEdges(st.blocks, blk);
    ReceivesGrows(c, st, st.(blocks := st.blocks + [blk]), {});
  }

  lemma JumpPhis(c: Context, st: Builder, lab: LVar, args: seq<Operand>)
    requires WellPhied(c, st) && Open(st) && Linked(st) && lab in c.arity
    requires |args| == |MachineRegs(c.target)| + c.arity[lab]
    ensures WellPhied(c, SealJump(st, lab, args))
  {
    var b := st.frags[lab];
    AddIncomingGrows(st, b, args);
    var st1 := AddIncoming(st, b, args);
    SealGrows(st1, Br(b));
    FinishEdges(st.blocks, st.cur, Br(b), Some(b), args);
    ReceivesGrows(c, st, st1, {});
    LinkedGrows(st, st1, {});
    ReceivesGrows(c, st1, Seal(st1, Br(b)), {st.cur});
  }

  lemma SwitchPhis(c: Context, st: Builder, v: Operand, arms: seq<Arm>)
    requires WellPhied(c, st) && Open(st) && Linked(st)
    requires forall i :: 0 <= i < |arms| ==> ArmBB(arms[i]) < |st.blocks| && st.blocks[ArmBB(arms[i])].phis == []
    ensures WellPhied(c, SealSwitch(st, v, arms))
  {
    var blk := EMPTY_BLOCK.(term := Some(Unreachable));
    var st1 := st.(blocks := st.blocks + [blk]);
    AppendPhis(c, st, blk);
    AppendGrows(st, blk);
    LinkedGrows(st, st1, {});
    SealPhis(c, st1, Switch(v, |st.blocks|, ArmBBs(arms)));
  }

  lemma MakeOverflowPhis(c: Context, st: Builder)
    requires WellPhied(c, st) && Open(st) && Linked(st)
    ensures var st' := MakeOverflowBB(c.target, st);
      && PhisExact(st'.blocks) && EdgesInside(st'.blocks) && Receives(c, st') && Linked(st') && Open(st')
      && st'.cur == st.cur && st'.regs == st.regs
  {
    var st' := MakeOverflowBB(c.target, st);
    if st.ovf.None? {
      var blk := OverflowBlock(c.target, st.next);
      AppendEdges(st.blocks, blk);
      AppendGrows(st, blk);
      var st1 := st.(blocks := st.blocks + [blk]);
      ReceivesGrows(c, st, st1, {});
      assert OverflowBlockFrom(c.target, st.next, blk);
    }
  }

  /** Splitting a block on a trap gives every phi of the overflow block a value for the new edge. */
  lemma SplitPhis(c: Context, st: Builder, obit: Operand)
    requires WellPhied(c, st) && Open(st) && Linked(st)
    ensures WellPhied(c, SplitOnTrap(c.target, st, obit))
  {
    hide PhisExact, EdgesInside, Receives, BlocksGrow, IsOverflowBlock, CreateArgs;
    var t := c.target;
    var (st1, ok) := NewBB(st);
    AppendPhis(c, st, EMPTY_BLOCK);
    AppendGrows(st, EMPTY_BLOCK);
    LinkedGrows(st, st1, {});
    MakeOverflowPhis(c, st1);
    var st2 := MakeOverflowBB(t, st1);
    OverflowFacts(c, st1, ok);
    var args := CreateArgs(t, st2.regs, STD_FUN);
    FinishTrap(c, st2, obit, ok, args);
  }

  lemma OverflowFacts(c: Context, st: Builder, ok: nat)
    requires Open(st) && Linked(st) && Receives(c, st) && ok < |st.blocks| && st.blocks[ok] == EMPTY_BLOCK
    ensures var st' := MakeOverflowBB(c.target, st);
      && st'.ovf.value < |st'.blocks| && st'.ovf.value != ok && st'.blocks[ok] == EMPTY_BLOCK && st'.ovf.value != st.cur
      && |st'.blocks[st'.ovf.value].phis| == |MachineRegs(c.target)|
  {
    if st.ovf.Some? {
      var n :| OverflowBlockFrom(c.target, n, st.blocks[st.ovf.value]);
    }
  }

  lemma FinishTrap(c: Context, st: Builder, obit: Operand, ok: nat, args: seq<Operand>)
    requires PhisExact(st.blocks) && EdgesInside(st.blocks) && Receives(c, st) && Linked(st) && Open(st)
    requires st.ovf.Some? && ok < |st.blocks| && st.blocks[ok] == EMPTY_BLOCK && st.ovf.value != ok
    requires |args| == |st.blocks[st.ovf.value].phis|
    ensures var st' := AddIncoming(st, st.ovf.value, args);
      WellPhied(c, SetInsertPoint(Seal(st', CondBr(obit, st.ovf.value, ok)), Some(ok)))
  {
    var trap := st.ovf.value;
    var term := CondBr(obit, trap, ok);
    AddIncomingGrows(st, trap, args);
    var st1 := AddIncoming(st, trap, args);
    assert Succs(Some(term)) == [trap, ok];
    FinishEdges(st.blocks, st.cur, term, Some(trap), args);
    ReceivesGrows(c, st, st1, {});
    LinkedGrows(st, st1, {});
    SealGrows(st1, term);
    ReceivesGrows(c, st1, Seal(st1, term), {st1.cur});
  }

  // ----- statements -----

  lemma {:induction false} NumberedArmsAt(arms: seq<Arm>, lo: nat, i: nat)
    requires NumberedArms(arms, lo) && i < |arms|
    ensures arms[i].bb.Some? && lo <= arms[i].bb.value < lo + NumArmsOf(arms)
    decreases arms
  {
    var last := arms[|arms| - 1];
    assert last.body < last;
    if i < |arms| - 1 {
      NumberedArmsAt(arms[..|arms| - 1], lo, i);
    }
  }

  /** What the next step of generation may rely on. */
  ghost predicate Steady(c: Context, st: Builder, lo: nat, n: nat) { Ready(st, lo, n) && WellPhied(c, st) }

  lemma PutSteady(c: Context, st: Builder, l: Line, lo: nat, n: nat)
    requires Steady(c, st, lo, n) && Continues(st.OpenLine(), l)
    ensures Steady(c, st.Put(l), lo, n)
  {
    PutReady(st, l, lo, n);
    PutPhis(c, st, l);
  }

  lemma SplitSteady(c: Context, st: Builder, obit: Operand, lo: nat, n: nat)
    requires Steady(c, st, lo, n)
    ensures Steady(c, SplitOnTrap(c.target, st, obit), lo, n)
  {
    SplitPhis(c, st, obit);
    SplitOnTrapGrows(c.target, st, obit);
    UntouchedGrows(st, SplitOnTrap(c.target, st, obit), {st.cur}, lo, lo + n);
  }

  /** Between arms: the insertion block is finished, the arms' blocks are not started. */
  ghost predicate Between(c: Context, st: Builder, lo: nat, n: nat) {
    st.Ok() && Linked(st) && Untouched(st, lo, lo + n) && WellPhied(c, st)
  }

  lemma SealBranchBetween(c: Context, st: Builder, s: Stm, v: Operand, lo: nat)
    requires s.BRANCH? && Steady(c, st, lo, NumArms(s)) && Numbered(s, lo)
    ensures Between(c, Seal(st, CondBr(v, ArmBB(s.onTrue), ArmBB(s.onFalse))), lo, NumArms(s))
  {
    var term := CondBr(v, ArmBB(s.onTrue), ArmBB(s.onFalse));
    assert Succs(Some(term)) == [ArmBB(s.onTrue), ArmBB(s.onFalse)];
    SealPhis(c, st, term);
    SealGrows(st, term);
    LinkedGrows(st, Seal(st, term), {st.cur});
    UntouchedGrows(st, Seal(st, term), {st.cur}, lo, lo + NumArms(s));
  }

  lemma SealSwitchBetween(c: Context, st: Builder, v: Operand, arms: seq<Arm>, lo: nat)
    requires Steady(c, st, lo, NumArmsOf(arms)) && NumberedArms(arms, lo)
    ensures Between(c, SealSwitch(st, v, arms), lo, NumArmsOf(arms))
  {
    forall i | 0 <= i < |arms| ensures ArmBB(arms[i]) < |st.blocks| && st.blocks[ArmBB(arms[i])].phis == [] {
      NumberedArmsAt(arms, lo, i);
    }
    SwitchPhis(c, st, v, arms);
    SealSwitchGrows(st, v, arms);
    UntouchedGrows(st, SealSwitch(st, v, arms), {st.cur}, lo, lo + NumArmsOf(arms));
  }

  lemma ArmSteady(c: Context, st: Builder, saved: seq<Option<Operand>>, bb: Option<nat>, lo: nat, n: nat)
    requires Between(c, st, lo, n + 1) && bb == Some(lo) && |saved| == NUM_REGS
    ensures st.(regs := saved).Ok() && Steady(c, SetInsertPoint(st.(regs := saved), bb), lo + 1, n)
  {
    ArmReady(st, saved, bb, lo, n);
  }

  lemma ArmsBetween(c: Context, st: Builder, st': Builder, lo: nat, n: nat, k: nat)
    requires Between(c, st, lo, n + k) && CompletesArms(st, st', lo, n) && WellPhied(c, st') && st'.Ok()
    ensures Between(c, st', lo + n, k)
  {
    UntouchedPart(st, lo, lo + n, lo + n + k);
    UntouchedGrows(st, st', Range(lo, lo + n), lo + n, lo + n + k);
  }

  /** Generating a statement keeps phis and edges matched. */
  lemma {:induction false} GenStmPhis(c: Context, clusters: map<LVar, FragKind>, st: Builder, s: Stm,
                                      scope: set<LVar>, lo: nat)
    requires Steady(c, st, lo, NumArms(s)) && Numbered(s, lo) && Scoped(c, s, scope)
    requires |c.target.stkOffset| == NUM_REGS
    ensures WellPhied(c, GenStm(c.target, clusters, st, s))
    decreases s, 2
  {
    hide Steady, WellPhied, GenStm, Numbered, NumArms, Scoped, GenSimple;
    SteadyLabels(c, st, lo, NumArms(s));
    if IsSimple(s) {
      hide IsSimple, Cont, Bound;
      GenStmSimple(c.target, clusters, st, s);
      SimpleArms(s, lo);
      PutSteady(c, st, GenSimple(c.target, st.OpenLine(), s), lo, NumArms(s));
      ScopedSimple(c, s, scope);
      GenStmPhis(c, clusters, st.Put(GenSimple(c.target, st.OpenLine(), s)), Cont(s), scope + Bound(s), lo);
    } else {
      ScopedComplex(c, s, scope);
      match s
      case ARITH(_, _, _, _) => TrapStmPhis(c, clusters, st, s, scope, lo);
      case APPLY(_, _) => CallStmPhis(c, clusters, st, s, lo);
      case THROW(_, _) => CallStmPhis(c, clusters, st, s, lo);
      case GOTO(_, _) => GotoStmPhis(c, clusters, st, s, scope, lo);
      case SWITCH(_, _) => SwitchStmPhis(c, clusters, st, s, scope, lo);
      case BRANCH(_, _, _, _) => BranchStmPhis(c, clusters, st, s, scope, lo);
    }
  }

  lemma ScopedComplex(c: Context, s: Stm, scope: set<LVar>)
    requires Scoped(c, s, scope) && !IsSimple(s)
    ensures !s.LET? && !s.ALLOC? && !s.SETTER? && !s.CALLGC? && (s.ARITH? ==> s.arith.TRAP?)
  {}

  lemma CallStmPhis(c: Context, clusters: map<LVar, FragKind>, st: Builder, s: Stm, lo: nat)
    requires (s.APPLY? || s.THROW?) && Steady(c, st, lo, NumArms(s)) && |c.target.stkOffset| == NUM_REGS && st.Ok()
    ensures WellPhied(c, GenStm(c.target, clusters, st, s))
  {
    hide Steady, WellPhied, GenCall;
    var kind := if s.APPLY? then CalleeKind(clusters, s.fn) else STD_CONT;
    ReturnPhis(c, st, GenCall(c.target, st.OpenLine(), s.fn, kind, s.args), lo);
  }

  lemma GotoStmPhis(c: Context, clusters: map<LVar, FragKind>, st: Builder, s: Stm, scope: set<LVar>, lo: nat)
    requires s.GOTO? && Steady(c, st, lo, NumArms(s)) && Scoped(c, s, scope) && |c.target.stkOffset| == NUM_REGS
    requires st.Ok()
    ensures WellPhied(c, GenStm(c.target, clusters, st, s))
  {
    hide Steady, WellPhied, SealJump, GenExps, CreateArgs;
    var l := st.OpenLine();
    var (l1, os) := GenExps(c.target, l, s.args);
    GotoPhis(c, st, l1, s.lab, CreateArgs(c.target, l.regs, INTERNAL) + os, lo);
  }

  lemma {:induction false} TrapStmPhis(c: Context, clusters: map<LVar, FragKind>, st: Builder, s: Stm,
                                       scope: set<LVar>, lo: nat)
    requires s.ARITH? && s.arith.TRAP? && Steady(c, st, lo, NumArms(s)) && Numbered(s, lo) && Scoped(c, s, scope)
    requires |c.target.stkOffset| == NUM_REGS && st.Ok()
    ensures WellPhied(c, GenStm(c.target, clusters, st, s))
    decreases s, 1
  {
    var n := NumArms(s.k);
    assert NumArms(s) == n && Numbered(s.k, lo) && Scoped(c, s.k, scope + {s.x});
    hide Steady, WellPhied, TrapHead, NumArms, Numbered, Scoped;
    TrapHeadSteady(c, st, s, lo, n);
    GenStmPhis(c, clusters, TrapHead(c.target, st, s), s.k, scope + {s.x}, lo);
  }

  lemma TrapHeadSteady(c: Context, st: Builder, s: Stm, lo: nat, n: nat)
    requires s.ARITH? && s.arith.TRAP? && Steady(c, st, lo, n) && |c.target.stkOffset| == NUM_REGS && st.Ok()
    ensures Steady(c, TrapHead(c.target, st, s), lo, n)
  {
    var (l1, os) := GenExps(c.target, st.OpenLine(), s.args);
    var (l2, res, obit) := GenTrap(l1, s.arith.op, os);
    hide Steady, SplitOnTrap, GenExps, GenTrap;
    PutSteady(c, st, Bind(l2, s.x, res), lo, n);
    SplitSteady(c, st.Put(Bind(l2, s.x, res)), obit, lo, n);
  }

  lemma {:induction false} SwitchStmPhis(c: Context, clusters: map<LVar, FragKind>, st: Builder, s: Stm,
                                         scope: set<LVar>, lo: nat)
    requires s.SWITCH? && Steady(c, st, lo, NumArms(s)) && Numbered(s, lo) && Scoped(c, s, scope)
    requires |c.target.stkOffset| == NUM_REGS && st.Ok()
    ensures WellPhied(c, GenStm(c.target, clusters, st, s))
    decreases s, 1
  {
    var arms := s.arms;
    var n := NumArmsOf(arms);
    assert NumArms(s) == n && NumberedArms(arms, lo) && ScopedArms(c, arms, scope);
    hide Steady, WellPhied, Between, GenArms, NumArms, NumArmsOf, NumberedArms, ScopedArms, SwitchHead, Scoped,
      Numbered;
    SwitchHeadBetween(c, st, s, lo);
    var st1 := SwitchHead(c.target, st, s);
    GenArmsPhis(c, clusters, st1, st.regs, arms, scope, lo);
    BetweenPhis(c, GenArms(c.target, clusters, st1, st.regs, arms), lo + n, 0);
  }

  lemma SwitchHeadBetween(c: Context, st: Builder, s: Stm, lo: nat)
    requires s.SWITCH? && Steady(c, st, lo, NumArmsOf(s.arms)) && NumberedArms(s.arms, lo)
    requires |c.target.stkOffset| == NUM_REGS && st.Ok()
    ensures var st' := SwitchHead(c.target, st, s);
      Between(c, st', lo, NumArmsOf(s.arms)) && SameShape(st'.regs, st.regs)
  {
    hide Steady, WellPhied, Between, GenExp;
    var (l1, v) := GenExp(c.target, st.OpenLine(), s.scrut);
    var (l2, v32) := Emit(l1, Trunc32, [v]);
    PutSteady(c, st, l2, lo, NumArmsOf(s.arms));
    SealSwitchBetween(c, st.Put(l2), v32, s.arms, lo);
  }

  lemma {:induction false} BranchStmPhis(c: Context, clusters: map<LVar, FragKind>, st: Builder, s: Stm,
                                         scope: set<LVar>, lo: nat)
    requires s.BRANCH? && Steady(c, st, lo, NumArms(s)) && Numbered(s, lo) && Scoped(c, s, scope)
    requires |c.target.stkOffset| == NUM_REGS && st.Ok()
    ensures WellPhied(c, GenStm(c.target, clusters, st, s))
    decreases s, 1
  {
    hide Steady, WellPhied, Between, NumArms, Numbered, Scoped, BranchHead;
    BranchHeadBetween(c, st, s, lo);
    BranchPhis(c, clusters, BranchHead(c.target, st, s), s, scope, lo);
  }

  lemma BranchHeadBetween(c: Context, st: Builder, s: Stm, lo: nat)
    requires s.BRANCH? && Steady(c, st, lo, NumArms(s)) && Numbered(s, lo) && |c.target.stkOffset| == NUM_REGS
    requires st.Ok()
    ensures Between(c, BranchHead(c.target, st, s), lo, NumArms(s))
  {
    var (l1, os) := GenExps(c.target, st.OpenLine(), s.args);
    var (l2, v) := GenTest(c.target, l1, s.test, os);
    hide Steady, WellPhied, Between, GenExps, GenTest, NumArms, Numbered;
    PutSteady(c, st, l2, lo, NumArms(s));
    SealBranchBetween(c, st.Put(l2), s, v, lo);
  }

  lemma SteadyLabels(c: Context, st: Builder, lo: nat, n: nat)
    requires Steady(c, st, lo, n)
    ensures c.arity.Keys <= st.frags.Keys && Ready(st, lo, n) && st.Ok()
  {}

  lemma ScopedSimple(c: Context, s: Stm, scope: set<LVar>)
    requires IsSimple(s) && Scoped(c, s, scope)
    ensures Scoped(c, Cont(s), scope + Bound(s))
  {
    if s.SETTER? {
      assert scope + Bound(s) == scope;
    }
  }

  lemma ReturnPhis(c: Context, st: Builder, l: Line, lo: nat)
    requires Steady(c, st, lo, 0) && Continues(st.OpenLine(), l)
    ensures WellPhied(c, Seal(st.Put(l), RetVoid))
  {
    PutSteady(c, st, l, lo, 0);
    assert Succs(Some(RetVoid)) == [];
    SealPhis(c, st.Put(l), RetVoid);
  }

  lemma GotoPhis(c: Context, st: Builder, l: Line, lab: LVar, args: seq<Operand>, lo: nat)
    requires Steady(c, st, lo, 0) && Continues(st.OpenLine(), l) && lab in c.arity
    requires |c.target.stkOffset| == NUM_REGS && |args| == |MachineRegs(c.target)| + c.arity[lab]
    ensures WellPhied(c, SealJump(st.Put(l), lab, args))
  {
    PutSteady(c, st, l, lo, 0);
    JumpPhis(c, st.Put(l), lab, args);
  }

  lemma {:induction false} GenArmPhis(c: Context, clusters: map<LVar, FragKind>, st: Builder,
                                      saved: seq<Option<Operand>>, arm: Arm, scope: set<LVar>, lo: nat, k: nat)
    requires |c.target.stkOffset| == NUM_REGS && SameShape(st.regs, saved)
    requires Between(c, st, lo, NumArms(arm.body) + 1 + k) && arm.bb == Some(lo) && Numbered(arm.body, lo + 1)
    requires Scoped(c, arm.body, scope)
    ensures var st' := GenStm(c.target, clusters, SetInsertPoint(st.(regs := saved), arm.bb), arm.body);
      && Between(c, st', lo + NumArms(arm.body) + 1, k) && SameShape(st.regs, st'.regs) && SameShape(st'.regs, saved)
    decreases arm
  {
    hide GenStm, Steady, WellPhied, Numbered, Scoped, NumArms, JumpsKnown, Between, Untouched, Linked, CompletesArms,
      SameShape;
    var n := NumArms(arm.body);
    BetweenPart(c, st, lo, n + 1, k);
    SameLength(st.regs, saved);
    ScopedJumps(c, arm.body, scope, st.frags.Keys);
    ArmSteady(c, st, saved, arm.bb, lo, n);
    GenStmPhis(c, clusters, SetInsertPoint(st.(regs := saved), arm.bb), arm.body, scope, lo + 1);
    GenArmCompletes(c.target, clusters, st, saved, arm, lo);
    var st' := GenStm(c.target, clusters, SetInsertPoint(st.(regs := saved), arm.bb), arm.body);
    ArmsBetween(c, st, st', lo, n + 1, k);
    ArmsShape(st, st', saved, lo, n + 1);
  }

  lemma BetweenPart(c: Context, st: Builder, lo: nat, n: nat, k: nat)
    requires Between(c, st, lo, n + k)
    ensures Between(c, st, lo, n) && Untouched(st, lo, lo + n) && Linked(st) && st.Ok() && c.arity.Keys <= st.frags.Keys
  {
    UntouchedPart(st, lo, lo + n, lo + n + k);
  }

  lemma ArmsShape(st: Builder, st': Builder, saved: seq<Option<Operand>>, lo: nat, n: nat)
    requires CompletesArms(st, st', lo, n) && SameShape(st.regs, saved)
    ensures SameShape(st.regs, st'.regs) && SameShape(st'.regs, saved)
  {}

  lemma {:induction false} BranchPhis(c: Context, clusters: map<LVar, FragKind>, st: Builder, s: Stm,
                                      scope: set<LVar>, lo: nat)
    requires |c.target.stkOffset| == NUM_REGS && |st.regs| == NUM_REGS
    requires s.BRANCH? && Between(c, st, lo, NumArms(s)) && Numbered(s, lo) && Scoped(c, s, scope)
    ensures var st2 := GenStm(c.target, clusters, SetInsertPoint(st, s.onTrue.bb), s.onTrue.body);
      WellPhied(c, GenStm(c.target, clusters, SetInsertPoint(st2.(regs := st.regs), s.onFalse.bb), s.onFalse.body))
    decreases s, 0
  {
    hide GenStm, Numbered, Scoped, NumArms, SameShape, Between, WellPhied;
    var a, b := s.onTrue, s.onFalse;
    var n, k := NumArms(a.body) + 1, NumArms(b.body) + 1;
    BranchParts(c, st, s, scope, lo);
    BetweenPart(c, st, lo, 0, n + k);
    GenArmPhis(c, clusters, st, st.regs, a, scope, lo, k);
    var st2 := GenStm(c.target, clusters, SetInsertPoint(st, a.bb), a.body);
    BetweenPart(c, st2, lo + n, 0, k);
    GenArmPhis(c, clusters, st2, st.regs, b, scope, lo + n, 0);
    BetweenPhis(c, GenStm(c.target, clusters, SetInsertPoint(st2.(regs := st.regs), b.bb), b.body), lo + n + k, 0);
  }

  lemma BranchParts(c: Context, st: Builder, s: Stm, scope: set<LVar>, lo: nat)
    requires s.BRANCH? && Numbered(s, lo) && Scoped(c, s, scope) && |st.regs| == NUM_REGS
    ensures var a, b := s.onTrue, s.onFalse;
      && a < s && b < s && st.(regs := st.regs) == st && SameShape(st.regs, st.regs)
      && a.bb == Some(lo) && b.bb == Some(lo + NumArms(a.body) + 1)
      && Numbered(a.body, lo + 1) && Numbered(b.body, lo + NumArms(a.body) + 2)
      && NumArms(s) == NumArms(a.body) + 1 + (NumArms(b.body) + 1)
      && Scoped(c, a.body, scope) && Scoped(c, b.body, scope)
  {}

  lemma BetweenPhis(c: Context, st: Builder, lo: nat, n: nat)
    requires Between(c, st, lo, n)
    ensures WellPhied(c, st)
  {}

  lemma {:induction false} GenArmsPhis(c: Context, clusters: map<LVar, FragKind>, st: Builder,
                                       saved: seq<Option<Operand>>, arms: seq<Arm>, scope: set<LVar>, lo: nat,
                                       k: nat := 0)
    requires |c.target.stkOffset| == NUM_REGS && SameShape(st.regs, saved)
    requires Between(c, st, lo, NumArmsOf(arms) + k) && NumberedArms(arms, lo) && ScopedArms(c, arms, scope)
    ensures var st' := GenArms(c.target, clusters, st, saved, arms);
      Between(c, st', lo + NumArmsOf(arms), k) && SameShape(st'.regs, saved)
    decreases arms, 0
  {
    hide GenStm, Between, Numbered, Scoped, NumArms, SameShape, NumArmsOf, NumberedArms, ScopedArms;
    SameLength(st.regs, saved);
    if arms == [] {
      NoArmsParts(arms);
    } else {
      var front, last := arms[..|arms| - 1], arms[|arms| - 1];
      var n, j := NumArmsOf(front), NumArms(last.body) + 1;
      ArmsParts(c, arms, scope, lo);
      BetweenPart(c, st, lo, 0, n + j + k);
      GenArmsPhis(c, clusters, st, saved, front, scope, lo, j + k);
      GenArmPhis(c, clusters, GenArms(c.target, clusters, st, saved, front), saved, last, scope, lo + n, k);
    }
  }

  lemma NoArmsParts(arms: seq<Arm>)
    requires arms == []
    ensures NumArmsOf(arms) == 0
  {}

  lemma ArmsParts(c: Context, arms: seq<Arm>, scope: set<LVar>, lo: nat)
    requires arms != [] && NumberedArms(arms, lo) && ScopedArms(c, arms, scope)
    ensures var front, last := arms[..|arms| - 1], arms[|arms| - 1];
      && last.body < last
      && NumArmsOf(arms) == NumArmsOf(front) + NumArms(last.body) + 1
      && NumberedArms(front, lo) && last.bb == Some(lo + NumArmsOf(front))
      && Numbered(last.body, lo + NumArmsOf(front) + 1)
      && ScopedArms(c, front, scope) && Scoped(c, last.body, scope)
  {
    var last := arms[|arms| - 1];
    assert last.body < last;
  }
}
