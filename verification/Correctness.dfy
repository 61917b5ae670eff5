/** Forward simulation: the blocks generated for a statement do what the statement does. */
module Correctness {
  import opened Common
  import opened CMRegisters
  import opened TargetIR
  import opened CFG
  import opened CodeBuilder
  import opened StraightLine
  import opened Collection
  import opened Growth
  import opened Phis
  import opened Simulation
  import opened Variables
  import opened Control

  /** The source semantics and the machine speak of the same target and primitives. */
  ghost predicate Same(sem: Semantics, c: Context, m: Machine) {
    sem.prims == m.prims && sem.target == m.target == c.target && sem.clusters == c.clusters
      && |c.target.stkOffset| == NUM_REGS
  }

  /** The machine's code includes everything generated so far. */
  ghost predicate Includes(m: Machine, st: Builder) { BlocksGrow(st.blocks, m.blocks) }

  ghost predicate Static(c: Context, st: Builder, s: Stm, scope: set<LVar>, lo: nat) {
    && Steady(c, st, lo, NumArms(s)) && Numbered(s, lo)
    && Scoped(c, s, scope) && UniqueBinders(s) && Binders(s) !! st.vMap.Keys
  }

  /** The state stands at the insertion point and matches the source. */
  ghost predicate At(m: Machine, st: Builder, scope: set<LVar>, src: SState, ts: TState) {
    st.Ok() && Matches(m, st.OpenLine(), scope, src, ts) && ts.block == st.cur
  }

  lemma IncludesEarlier(m: Machine, st: Builder, st': Builder, own: set<nat>)
    requires Grows(st, st', own) && Includes(m, st')
    ensures Includes(m, st)
  {
    BlocksGrowTrans(st.blocks, st'.blocks, m.blocks);
  }

  lemma IncludesSealed(m: Machine, st: Builder, term: Term)
    requires Open(st) && Includes(m, Seal(st, term))
    ensures Includes(m, st) && SealedWith(m, st.cur, st.blocks[st.cur].body, term) && BlockHas(m, st.cur, st.OpenLine())
  {
    SealGrows(st, term);
    IncludesEarlier(m, st, Seal(st, term), {st.cur});
    assert BlockGrows(Seal(st, term).blocks[st.cur], m.blocks[st.cur]);
  }

  // ----- statements with one continuation -----

  lemma StaticParts(c: Context, st: Builder, s: Stm, scope: set<LVar>, lo: nat)
    requires Static(c, st, s, scope, lo)
    ensures Steady(c, st, lo, NumArms(s)) && Numbered(s, lo) && Scoped(c, s, scope) && UniqueBinders(s)
    ensures Binders(s) !! st.vMap.Keys && Ready(st, lo, NumArms(s)) && c.arity.Keys <= st.frags.Keys && Open(st)
    ensures st.Ok()
  {}

  lemma SimpleStatic(c: Context, st: Builder, s: Stm, scope: set<LVar>, lo: nat)
    requires IsSimple(s) && Static(c, st, s, scope, lo) && st.Ok() && |c.target.stkOffset| == NUM_REGS
    ensures Static(c, st.Put(GenSimple(c.target, st.OpenLine(), s)), Cont(s), scope + Bound(s), lo)
  {
    var l := GenSimple(c.target, st.OpenLine(), s);
    hide Steady, GenSimple;
    SimpleArms(s, lo);
    PutSteady(c, st, l, lo, NumArms(s));
    ScopedCont(c, s, scope);
    SimpleVars(c.target, st.OpenLine(), s);
  }

  /** Everything generated from st on is included in the machine's code. */
  lemma IncludesStm(c: Context, m: Machine, st: Builder, s: Stm, scope: set<LVar>, lo: nat)
    requires Static(c, st, s, scope, lo) && |c.target.stkOffset| == NUM_REGS && st.Ok()
    requires Includes(m, GenStm(c.target, c.clusters, st, s))
    ensures Includes(m, st)
  {
    ScopedJumps(c, s, scope, st.frags.Keys);
    GenStmCompletes(c.target, c.clusters, st, s, lo);
    IncludesEarlier(m, st, GenStm(c.target, c.clusters, st, s), {st.cur} + Range(lo, lo + NumArms(s)));
  }

  lemma IncludedLine(m: Machine, st: Builder)
    requires st.Ok() && Includes(m, st)
    ensures BlockHas(m, st.cur, st.OpenLine())
  {
    assert BlockGrows(st.blocks[st.cur], m.blocks[st.cur]);
  }

  lemma {:induction false} SimpleStmSim(sem: Semantics, c: Context, m: Machine, st: Builder, s: Stm, scope: set<LVar>,
                                        lo: nat, src: SState, ts: TState)
    returns (r: Result)
    requires IsSimple(s) && Same(sem, c, m) && Static(c, st, s, scope, lo) && At(m, st, scope, src, ts)
    requires |src.regs| == NUM_REGS
    requires Includes(m, GenStm(c.target, c.clusters, st, s))
    ensures Leads(m, ts, r) && Agrees(m, st.frags, sem.Run(src, s), r)
    decreases s, 0
  {
    hide Static, GenStm, Includes, Agrees, Matches, GenSimple, BlockHas, Leads, Reach;
    var l := GenSimple(c.target, st.OpenLine(), s);
    var st1 := st.Put(l);
    StaticParts(c, st, s, scope, lo);
    GenStmSimple(c.target, c.clusters, st, s);
    SimpleStatic(c, st, s, scope, lo);
    IncludesStm(c, m, st1, Cont(s), scope + Bound(s), lo);
    IncludedLine(m, st1);
    var ts1 := SimpleSim(sem, c, m, st.OpenLine(), s, scope, src, ts, l);
    r := StmSim(sem, c, m, st1, Cont(s), scope + Bound(s), lo, After(sem, src, s), ts1);
    ReachLeads(m, ts, ts1, r);
  }

  // ----- calls and jumps -----

  lemma CallStmSim(sem: Semantics, c: Context, m: Machine, st: Builder, s: Stm, scope: set<LVar>, lo: nat,
                   src: SState, ts: TState)
    returns (r: Result)
    requires (s.APPLY? || s.THROW?) && Same(sem, c, m) && Static(c, st, s, scope, lo) && At(m, st, scope, src, ts)
    requires |src.regs| == NUM_REGS
    requires Includes(m, GenStm(c.target, c.clusters, st, s))
    ensures Leads(m, ts, r) && Agrees(m, st.frags, sem.Run(src, s), r)
  {
    hide Static, GenStm, Includes, GenExp, GenExps, Sim, Holds, AllHold, BlockHas, Matches, Leads, Reach,
      ConventionArgs;
    var t, l := c.target, st.OpenLine();
    var kind := if s.APPLY? then CalleeKind(c.clusters, s.fn) else STD_CONT;
    var (l1, f) := GenExp(t, l, s.fn);
    var (l2, os) := GenExps(t, l1, s.args);
    CallCode(c, m, st, s, scope, lo);
    var fin := GenCall(t, l, s.fn, kind, s.args);
    SimStart(m, l, scope, src, ts);
    var ts1 := ExpSim(sem, m, l, ts, l, s.fn, scope, src, ts, fin);
    var ts2 := ExpsSim(sem, m, l, ts, l1, s.args, scope, src, ts1, fin);
    SimMatches(m, l, ts, l2, scope, src, ts2);
    CallLeaves(m, l2, f, sem.Exp(s.fn, src), kind, os, sem.Exps(s.args, src), scope, src, ts2);
    r := m.Step(ts2);
    ReachLeads(m, ts, ts2, r);
  }

  lemma CallCode(c: Context, m: Machine, st: Builder, s: Stm, scope: set<LVar>, lo: nat)
    requires (s.APPLY? || s.THROW?) && Static(c, st, s, scope, lo) && |c.target.stkOffset| == NUM_REGS && st.Ok()
    requires Includes(m, GenStm(c.target, c.clusters, st, s))
    ensures var kind := if s.APPLY? then CalleeKind(c.clusters, s.fn) else STD_CONT;
      BlockHas(m, st.cur, GenCall(c.target, st.OpenLine(), s.fn, kind, s.args))
    ensures ScopedExp(s.fn, scope) && ScopedExps(s.args, scope)
  {
    var kind := if s.APPLY? then CalleeKind(c.clusters, s.fn) else STD_CONT;
    var fin := GenCall(c.target, st.OpenLine(), s.fn, kind, s.args);
    assert GenStm(c.target, c.clusters, st, s) == Seal(st.Put(fin), RetVoid);
    StaticParts(c, st, s, scope, lo);
    hide GenStm, Includes, BlockHas, Static, GenCall, Scoped;
    PutGrows(st, fin);
    IncludesSealed(m, st.Put(fin), RetVoid);
    ScopedCall(c, s, scope);
  }

  lemma ScopedCall(c: Context, s: Stm, scope: set<LVar>)
    requires (s.APPLY? || s.THROW?) && Scoped(c, s, scope)
    ensures ScopedExp(s.fn, scope) && ScopedExps(s.args, scope)
  {}

  lemma SimMatches(m: Machine, l0: Line, ts0: TState, l: Line, scope: set<LVar>, s: SState, ts: TState)
    requires Sim(m, l0, ts0, l, scope, s, ts)
    ensures Matches(m, l, scope, s, ts) && Reach(m, ts0, ts) && ts.block == ts0.block
  {}

  lemma GotoStmSim(sem: Semantics, c: Context, m: Machine, st: Builder, s: Stm, scope: set<LVar>, lo: nat,
                   src: SState, ts: TState)
    returns (r: Result)
    requires s.GOTO? && Same(sem, c, m) && Static(c, st, s, scope, lo) && At(m, st, scope, src, ts)
    requires |src.regs| == NUM_REGS
    requires Includes(m, GenStm(c.target, c.clusters, st, s))
    ensures Leads(m, ts, r) && Agrees(m, st.frags, sem.Run(src, s), r)
  {
    hide Static, GenStm, BlocksGrow, GenExps, Sim, Holds, AllHold, BlockHas, Matches, Leads, Reach, CreateArgs, AtFrag,
      SealJump, Receives;
    var t, l := c.target, st.OpenLine();
    var (l1, os) := GenExps(t, l, s.args);
    var st1 := st.Put(l1);
    GotoCode(c, m, st, s, scope, lo);
    SimStart(m, l, scope, src, ts);
    var ts1 := ExpsSim(sem, m, l, ts, l, s.args, scope, src, ts, l1);
    SimMatches(m, l, ts, l1, scope, src, ts1);
    ReceiverPhis(c, m, st1, s.lab);
    JumpArrives(m, st1, s.lab, os, sem.Exps(s.args, src), scope, src, ts1);
    r := m.Step(ts1);
    ReachLeads(m, ts, ts1, r);
  }

  lemma GotoCode(c: Context, m: Machine, st: Builder, s: Stm, scope: set<LVar>, lo: nat)
    requires s.GOTO? && Static(c, st, s, scope, lo) && |c.target.stkOffset| == NUM_REGS && st.Ok()
    requires Includes(m, GenStm(c.target, c.clusters, st, s))
    ensures var (l1, os) := GenExps(c.target, st.OpenLine(), s.args); var st1 := st.Put(l1);
      && Includes(m, SealJump(st1, s.lab, CreateArgs(c.target, l1.regs, INTERNAL) + os)) && Includes(m, st1)
      && BlockHas(m, st.cur, l1)
      && Open(st1) && NoEdgeFrom(st1.blocks, st1.cur) && Receives(c, st1)
    ensures ScopedExps(s.args, scope) && s.lab in c.arity && c.arity[s.lab] == |s.args|
  {
    var t, l := c.target, st.OpenLine();
    var (l1, os) := GenExps(t, l, s.args);
    var args := CreateArgs(t, l.regs, INTERNAL) + os;
    var st1 := st.Put(l1);
    StaticParts(c, st, s, scope, lo);
    assert GenStm(t, c.clusters, st, s) == SealJump(st1, s.lab, args);
    PutSteady(c, st, l1, lo, 0);
    assert Open(st1) && PhisExact(st1.blocks) && Receives(c, st1) && Ready(st1, lo, 0) && s.lab in st1.frags;
    hide GenStm, Includes, GenExps, CreateArgs, SealJump, Receives, Static, Steady, PhisExact, Ready;
    JumpCompletes(st1, l1, s.lab, args, lo);
    assert st1.Put(l1) == st1;
    IncludesEarlier(m, st1, SealJump(st1, s.lab, args), {st1.cur} + Range(lo, lo));
    IncludedLine(m, st1);
    OpenHasNoEdges(st1);
  }

  lemma ReceiverPhis(c: Context, m: Machine, st: Builder, lab: LVar)
    requires Receives(c, st) && Includes(m, st) && lab in c.arity
    ensures lab in st.frags && st.frags[lab] < |st.blocks| && st.frags[lab] < |m.blocks|
    ensures DistinctPhis(m.blocks[st.frags[lab]].phis)
    ensures |st.blocks[st.frags[lab]].phis| == |MachineRegs(c.target)| + c.arity[lab]
  {
    assert BlockGrows(st.blocks[st.frags[lab]], m.blocks[st.frags[lab]]);
  }

  // ----- arms -----

  /** What holds in a state just after the insertion block, before any arm is entered. */
  ghost predicate Carries(m: Machine, next: nat, vMap: map<LVar, Operand>, regs: seq<Option<Operand>>,
                          scope: set<LVar>, src: SState, ts: TState) {
    MatchesIn(m, next, vMap, regs, scope, src, ts)
  }

  lemma CarriesLater(m: Machine, next: nat, vMap: map<LVar, Operand>, next': nat, vMap': map<LVar, Operand>,
                     bound: set<LVar>, regs: seq<Option<Operand>>, scope: set<LVar>, src: SState, ts: TState)
    requires Carries(m, next, vMap, regs, scope, src, ts) && next <= next' && VarsGrow(vMap, vMap', bound)
    ensures Carries(m, next', vMap', regs, scope, src, ts)
  {}

  /** Entering an arm's block, the source's state is where the arm's code expects it. */
  lemma EnterArm(m: Machine, st: Builder, saved: seq<Option<Operand>>, bb: Option<nat>, lo: nat, n: nat,
                 scope: set<LVar>, src: SState, ts: TState)
    requires st.Ok() && |saved| == NUM_REGS && bb == Some(lo) && Untouched(st, lo, lo + 1 + n) && Includes(m, st)
    requires Carries(m, st.next, st.vMap, saved, scope, src, ts)
    ensures m.Enter(ts, lo) == Running(ts.(block := lo, ix := 0))
    ensures At(m, SetInsertPoint(st.(regs := saved), bb), scope, src, ts.(block := lo, ix := 0))
  {
    assert st.blocks[lo] == EMPTY_BLOCK;
    assert BlockGrows(st.blocks[lo], m.blocks[lo]);
    EnterPlain(m, ts, lo);
  }

  ghost predicate ArmStatic(c: Context, st: Builder, saved: seq<Option<Operand>>, arm: Arm, scope: set<LVar>, lo: nat,
                            k: nat) {
    && Between(c, st, lo, NumArms(arm.body) + 1 + k) && SameShape(st.regs, saved)
    && arm.bb == Some(lo) && Numbered(arm.body, lo + 1)
    && Scoped(c, arm.body, scope) && UniqueBinders(arm.body) && Binders(arm.body) !! st.vMap.Keys
  }

  lemma ArmBodyStatic(c: Context, st: Builder, saved: seq<Option<Operand>>, arm: Arm, scope: set<LVar>, lo: nat, k: nat)
    requires ArmStatic(c, st, saved, arm, scope, lo, k) && |saved| == NUM_REGS && st.Ok()
    ensures var st1 := SetInsertPoint(st.(regs := saved), arm.bb);
      && Static(c, st1, arm.body, scope, lo + 1) && st1.blocks == st.blocks && st1.frags == st.frags
      && arm.bb == Some(lo) && Untouched(st, lo, lo + 1 + NumArms(arm.body))
  {
    var n := NumArms(arm.body);
    UntouchedPart(st, lo, lo + n + 1, lo + n + 1 + k);
    ArmSteady(c, st, saved, arm.bb, lo, n);
  }

  /** One arm, entered from the block before. */
  lemma {:induction false} ArmSim(sem: Semantics, c: Context, m: Machine, st: Builder, saved: seq<Option<Operand>>,
                                  arm: Arm, scope: set<LVar>, lo: nat, k: nat, src: SState, ts: TState)
    returns (r: Result)
    requires Same(sem, c, m) && ArmStatic(c, st, saved, arm, scope, lo, k) && |src.regs| == NUM_REGS
    requires |saved| == NUM_REGS && st.Ok()
    requires Carries(m, st.next, st.vMap, saved, scope, src, ts)
    requires Includes(m, GenStm(c.target, c.clusters, SetInsertPoint(st.(regs := saved), arm.bb), arm.body))
    ensures m.Enter(ts, ArmBB(arm)).Running? && Leads(m, m.Enter(ts, ArmBB(arm)).state, r)
    ensures Agrees(m, st.frags, sem.Run(src, arm.body), r)
    decreases arm
  {
    hide Static, Agrees, Includes, At, GenStm, Between, Numbered, Scoped, UniqueBinders, Carries, ArmStatic, Untouched,
      NumArms;
    var n := NumArms(arm.body);
    var st1 := SetInsertPoint(st.(regs := saved), arm.bb);
    ArmBodyStatic(c, st, saved, arm, scope, lo, k);
    IncludesStm(c, m, st1, arm.body, scope, lo + 1);
    EnterArm(m, st, saved, arm.bb, lo, n, scope, src, ts);
    r := StmSim(sem, c, m, st1, arm.body, scope, lo + 1, src, ts.(block := lo, ix := 0));
  }

  ghost predicate ArmsStatic(c: Context, st: Builder, saved: seq<Option<Operand>>, arms: seq<Arm>, scope: set<LVar>,
                             lo: nat, k: nat) {
    && Between(c, st, lo, NumArmsOf(arms) + k) && SameShape(st.regs, saved)
    && NumberedArms(arms, lo)
    && ScopedArms(c, arms, scope) && UniqueArmBinders(arms) && ArmBinders(arms) !! st.vMap.Keys
  }

  lemma ArmsStaticFront(c: Context, st: Builder, saved: seq<Option<Operand>>, arms: seq<Arm>, scope: set<LVar>,
                        lo: nat, k: nat)
    requires arms != [] && ArmsStatic(c, st, saved, arms, scope, lo, k)
    ensures var front, last := arms[..|arms| - 1], arms[|arms| - 1];
      && last.body < last && NumArmsOf(arms) == NumArmsOf(front) + (NumArms(last.body) + 1)
      && ArmsStatic(c, st, saved, front, scope, lo, NumArms(last.body) + 1 + k)
  {
    var last := arms[|arms| - 1];
    assert last.body < last;
  }

  /** After the front arms, the last arm's blocks are untouched and its variables unbound. */
  lemma FrontGenerated(c: Context, st: Builder, saved: seq<Option<Operand>>, front: seq<Arm>, scope: set<LVar>,
                       lo: nat, k: nat)
    requires ArmsStatic(c, st, saved, front, scope, lo, k) && |c.target.stkOffset| == NUM_REGS && |saved| == NUM_REGS
    requires st.Ok()
    ensures var st1 := GenArms(c.target, c.clusters, st, saved, front);
      && Between(c, st1, lo + NumArmsOf(front), k) && SameShape(st1.regs, saved)
      && VarsGrow(st.vMap, st1.vMap, ArmBinders(front))
  {
    hide Between, SameShape, NumArmsOf, NumberedArms, ScopedArms, UniqueArmBinders, ArmsStatic, ArmBinders, GenArms,
      VarsGrow;
    ArmsStaticParts(c, st, saved, front, scope, lo, k);
    GenArmsPhis(c, c.clusters, st, saved, front, scope, lo, k);
    GenArmsVars(c.target, c.clusters, st, saved, front);
  }

  lemma ArmsStaticLast(c: Context, st: Builder, saved: seq<Option<Operand>>, arms: seq<Arm>, scope: set<LVar>,
                       lo: nat, k: nat)
    requires arms != [] && ArmsStatic(c, st, saved, arms, scope, lo, k) && |c.target.stkOffset| == NUM_REGS
    requires |saved| == NUM_REGS && st.Ok()
    ensures var front, last := arms[..|arms| - 1], arms[|arms| - 1];
      ArmStatic(c, GenArms(c.target, c.clusters, st, saved, front), saved, last, scope, lo + NumArmsOf(front), k)
  {
    hide Between, SameShape, NumArmsOf, NumArms, NumberedArms, ScopedArms, Numbered, Scoped, UniqueBinders,
      UniqueArmBinders,
      ArmsStatic, ArmStatic, Binders, ArmBinders, GenArms, VarsGrow;
    var front, last := arms[..|arms| - 1], arms[|arms| - 1];
    var j := NumArms(last.body) + 1;
    var st1 := GenArms(c.target, c.clusters, st, saved, front);
    ArmsStaticFront(c, st, saved, arms, scope, lo, k);
    FrontGenerated(c, st, saved, front, scope, lo, j + k);
    ArmsStaticParts(c, st, saved, arms, scope, lo, k);
    ArmsParts(c, arms, scope, lo);
    ArmsUnique(arms);
    StillUnbound(st.vMap, st1.vMap, ArmBinders(front), Binders(last.body));
    MakeArmStatic(c, st1, saved, last, scope, lo + NumArmsOf(front), k);
  }

  lemma MakeArmStatic(c: Context, st: Builder, saved: seq<Option<Operand>>, arm: Arm, scope: set<LVar>, lo: nat, k: nat)
    requires Between(c, st, lo, NumArms(arm.body) + 1 + k) && SameShape(st.regs, saved) && arm.bb == Some(lo)
    requires Numbered(arm.body, lo + 1)
    requires Scoped(c, arm.body, scope) && UniqueBinders(arm.body) && Binders(arm.body) !! st.vMap.Keys
    ensures ArmStatic(c, st, saved, arm, scope, lo, k)
  {}

  lemma ArmsStaticParts(c: Context, st: Builder, saved: seq<Option<Operand>>, arms: seq<Arm>, scope: set<LVar>,
                        lo: nat, k: nat)
    requires ArmsStatic(c, st, saved, arms, scope, lo, k)
    ensures Between(c, st, lo, NumArmsOf(arms) + k) && SameShape(st.regs, saved) && ArmBinders(arms) !! st.vMap.Keys
    ensures NumberedArms(arms, lo) && ScopedArms(c, arms, scope) && UniqueArmBinders(arms)
  {}

  lemma ArmsUnique(arms: seq<Arm>)
    requires arms != [] && UniqueArmBinders(arms)
    ensures var front, last := arms[..|arms| - 1], arms[|arms| - 1];
      && last.body < last && UniqueArmBinders(front) && UniqueBinders(last.body)
      && ArmBinders(front) !! Binders(last.body) && ArmBinders(arms) == ArmBinders(front) + Binders(last.body)
  {
    var last := arms[|arms| - 1];
    assert last.body < last;
  }

  lemma StillUnbound(vMap: map<LVar, Operand>, vMap': map<LVar, Operand>, bound: set<LVar>, later: set<LVar>)
    requires VarsGrow(vMap, vMap', bound) && bound !! later && later !! vMap.Keys
    ensures later !! vMap'.Keys
  {}

  lemma GenArmsGrows(c: Context, st: Builder, saved: seq<Option<Operand>>, arms: seq<Arm>, scope: set<LVar>, lo: nat,
                     k: nat)
    requires ArmsStatic(c, st, saved, arms, scope, lo, k) && |c.target.stkOffset| == NUM_REGS && |saved| == NUM_REGS
    requires st.Ok()
    ensures Grows(st, GenArms(c.target, c.clusters, st, saved, arms), Range(lo, lo + NumArmsOf(arms)))
  {
    UntouchedPart(st, lo, lo + NumArmsOf(arms), lo + NumArmsOf(arms) + k);
    ScopedJumpsArms(c, arms, scope, st.frags.Keys);
    GenArmsCompletes(c.target, c.clusters, st, saved, arms, lo);
  }

  lemma GenArmGrows(c: Context, st: Builder, saved: seq<Option<Operand>>, arm: Arm, scope: set<LVar>, lo: nat, k: nat)
    requires ArmStatic(c, st, saved, arm, scope, lo, k) && |c.target.stkOffset| == NUM_REGS && |saved| == NUM_REGS
    requires st.Ok()
    ensures Grows(st, GenStm(c.target, c.clusters, SetInsertPoint(st.(regs := saved), arm.bb), arm.body),
      Range(lo, lo + NumArms(arm.body) + 1))
  {
    var n := NumArms(arm.body) + 1;
    UntouchedPart(st, lo, lo + n, lo + n + k);
    ScopedJumps(c, arm.body, scope, st.frags.Keys);
    GenArmCompletes(c.target, c.clusters, st, saved, arm, lo);
  }

  /** The arm a switch selects runs as if it were the only one. */
  lemma {:induction false} ArmsSim(sem: Semantics, c: Context, m: Machine, st: Builder, saved: seq<Option<Operand>>,
                                   arms: seq<Arm>, i: nat, scope: set<LVar>, lo: nat, k: nat, src: SState, ts: TState)
    returns (r: Result)
    requires Same(sem, c, m) && ArmsStatic(c, st, saved, arms, scope, lo, k) && |src.regs| == NUM_REGS
    requires |saved| == NUM_REGS && st.Ok()
    requires Carries(m, st.next, st.vMap, saved, scope, src, ts) && i < |arms|
    requires Includes(m, GenArms(c.target, c.clusters, st, saved, arms))
    ensures m.Enter(ts, ArmBB(arms[i])).Running? && Leads(m, m.Enter(ts, ArmBB(arms[i])).state, r)
    ensures Agrees(m, st.frags, sem.Run(src, arms[i].body), r)
    decreases arms, 0
  {
    hide ArmsStatic, ArmStatic, Carries, Includes, Agrees, Grows, GenStm, Same;
    var front, last := arms[..|arms| - 1], arms[|arms| - 1];
    var n, j := NumArmsOf(front), NumArms(last.body) + 1;
    SameTarget(sem, c, m);
    ArmsStaticFront(c, st, saved, arms, scope, lo, k);
    ArmsStaticLast(c, st, saved, arms, scope, lo, k);
    var st1 := GenArms(c.target, c.clusters, st, saved, front);
    GenArmsGrows(c, st, saved, front, scope, lo, j + k);
    if i < |front| {
      GenArmGrows(c, st1, saved, last, scope, lo + n, k);
      IncludesEarlier(m, st1, GenArms(c.target, c.clusters, st, saved, arms), Range(lo + n, lo + n + j));
      r := ArmsSim(sem, c, m, st, saved, front, i, scope, lo, j + k, src, ts);
    } else {
      GenArmsVars(c.target, c.clusters, st, saved, front);
      GrowsNext(st, st1, Range(lo, lo + n));
      CarriesLater(m, st.next, st.vMap, st1.next, st1.vMap, ArmBinders(front), saved, scope, src, ts);
      r := ArmSim(sem, c, m, st1, saved, last, scope, lo + n, k, src, ts);
    }
  }

  lemma SameTarget(sem: Semantics, c: Context, m: Machine)
    requires Same(sem, c, m)
    ensures |c.target.stkOffset| == NUM_REGS
  {}

  lemma GrowsNext(st: Builder, st': Builder, own: set<nat>)
    requires Grows(st, st', own)
    ensures st.next <= st'.next && st'.frags == st.frags
  {}

  lemma {:induction false} StmSim(sem: Semantics, c: Context, m: Machine, st: Builder, s: Stm, scope: set<LVar>,
                                  lo: nat, src: SState, ts: TState)
    returns (r: Result)
    requires Same(sem, c, m) && Static(c, st, s, scope, lo) && At(m, st, scope, src, ts) && |src.regs| == NUM_REGS
    requires Includes(m, GenStm(c.target, c.clusters, st, s))
    ensures Leads(m, ts, r) && Agrees(m, st.frags, sem.Run(src, s), r)
    decreases s, 1
  {
    hide Static, At, Includes, Agrees, Leads, GenStm;
    StaticParts(c, st, s, scope, lo);
    if IsSimple(s) {
      r := SimpleStmSim(sem, c, m, st, s, scope, lo, src, ts);
    } else {
      ScopedComplex(c, s, scope);
      match s
      case ARITH(_, _, _, _) => r := TrapStmSim(sem, c, m, st, s, scope, lo, src, ts);
      case APPLY(_, _) => r := CallStmSim(sem, c, m, st, s, scope, lo, src, ts);
      case THROW(_, _) => r := CallStmSim(sem, c, m, st, s, scope, lo, src, ts);
      case GOTO(_, _) => r := GotoStmSim(sem, c, m, st, s, scope, lo, src, ts);
      case SWITCH(_, _) => r := SwitchStmSim(sem, c, m, st, s, scope, lo, src, ts);
      case BRANCH(_, _, _, _) => r := BranchStmSim(sem, c, m, st, s, scope, lo, src, ts);
    }
  }

  // ----- switches -----

  lemma EndCarries(m: Machine, l: Line, regs: seq<Option<Operand>>, scope: set<LVar>, src: SState, ts: TState)
    requires Matches(m, l, scope, src, ts) && l.regs == regs
    ensures Carries(m, l.next, l.vMap, regs, scope, src, ts)
  {}

  lemma {:induction false} SwitchStmSim(sem: Semantics, c: Context, m: Machine, st: Builder, s: Stm, scope: set<LVar>,
                                        lo: nat, src: SState, ts: TState)
    returns (r: Result)
    requires s.SWITCH? && Same(sem, c, m) && Static(c, st, s, scope, lo) && At(m, st, scope, src, ts)
    requires |src.regs| == NUM_REGS
    requires Includes(m, GenStm(c.target, c.clusters, st, s))
    ensures Leads(m, ts, r) && Agrees(m, st.frags, sem.Run(src, s), r)
    decreases s, 0
  {
    var v := sem.Exp(s.scrut, src);
    if 0 <= v < |s.arms| {
      hide Static, At, Includes, Agrees, Leads, GenStm, GenArms, ArmsStatic, Carries, Same, SwitchHead;
      SameTarget(sem, c, m);
      StaticParts(c, st, s, scope, lo);
      var st1 := SwitchHead(c.target, st, s);
      SwitchStatic(c, st, s, scope, lo);
      SwitchIncluded(c, m, st, s, scope, lo);
      var ts1 := SwitchHeadSim(sem, c, m, st, s, scope, lo, src, ts);
      r := ArmsSim(sem, c, m, st1, st.regs, s.arms, v, scope, lo, 0, src, ts1);
      LeadsTrans(m, ts, m.Enter(ts1, ArmBB(s.arms[v])).state, r);
    } else {
      r := m.Step(ts);
      StepLeads(m, ts);
    }
  }

  lemma SwitchIncluded(c: Context, m: Machine, st: Builder, s: Stm, scope: set<LVar>, lo: nat)
    requires s.SWITCH? && |c.target.stkOffset| == NUM_REGS && st.Ok()
    requires ArmsStatic(c, SwitchHead(c.target, st, s), st.regs, s.arms, scope, lo, 0)
    requires Includes(m, GenStm(c.target, c.clusters, st, s))
    ensures Includes(m, GenArms(c.target, c.clusters, SwitchHead(c.target, st, s), st.regs, s.arms))
    ensures Includes(m, SwitchHead(c.target, st, s)) && SwitchHead(c.target, st, s).frags == st.frags
  {
    hide SwitchHead, ArmsStatic, Includes;
    var st1 := SwitchHead(c.target, st, s);
    GenArmsGrows(c, st1, st.regs, s.arms, scope, lo, 0);
    IncludesEarlier(m, st1, GenArms(c.target, c.clusters, st1, st.regs, s.arms), Range(lo, lo + NumArmsOf(s.arms)));
    SwitchHeadFrags(c.target, st, s);
  }

  lemma SwitchHeadFrags(t: TargetInfo, st: Builder, s: Stm)
    requires s.SWITCH? && |t.stkOffset| == NUM_REGS && st.Ok()
    ensures SwitchHead(t, st, s).frags == st.frags && SwitchHead(t, st, s).vMap == st.vMap
    ensures SwitchHead(t, st, s).regs == st.regs
  {}

  lemma SwitchStatic(c: Context, st: Builder, s: Stm, scope: set<LVar>, lo: nat)
    requires s.SWITCH? && Static(c, st, s, scope, lo) && |c.target.stkOffset| == NUM_REGS && st.Ok()
    ensures ArmsStatic(c, SwitchHead(c.target, st, s), st.regs, s.arms, scope, lo, 0)
  {
    hide SwitchHead, Steady, Between;
    SwitchHeadBetween(c, st, s, lo);
    SwitchHeadFrags(c.target, st, s);
  }

  /** The dispatch takes the source's arm: the scrutinee survives truncation because it is in range. */
  lemma SwitchHeadSim(sem: Semantics, c: Context, m: Machine, st: Builder, s: Stm, scope: set<LVar>, lo: nat,
                      src: SState, ts: TState)
    returns (ts': TState)
    requires s.SWITCH? && Same(sem, c, m) && Static(c, st, s, scope, lo) && At(m, st, scope, src, ts)
    requires |src.regs| == NUM_REGS && st.Ok()
    requires |c.target.stkOffset| == NUM_REGS && Includes(m, SwitchHead(c.target, st, s))
    requires 0 <= sem.Exp(s.scrut, src) < |s.arms|
    ensures Carries(m, SwitchHead(c.target, st, s).next, SwitchHead(c.target, st, s).vMap, st.regs, scope, src, ts')
    ensures var v := sem.Exp(s.scrut, src);
      m.Enter(ts', ArmBB(s.arms[v])).Running? ==> Leads(m, ts, m.Enter(ts', ArmBB(s.arms[v])))
  {
    var t, l, v := c.target, st.OpenLine(), sem.Exp(s.scrut, src);
    var (l1, o) := GenExp(t, l, s.scrut);
    var (l2, o32) := Emit(l1, Trunc32, [o]);
    var term := Switch(o32, |st.blocks|, ArmBBs(s.arms));
    SwitchCode(c, m, st, s, scope, lo);
    SimStart(m, l, scope, src, ts);
    var ts1 := ExpSim(sem, m, l, ts, l, s.scrut, scope, src, ts, l2);
    assert v % 0x1_0000_0000 == v;
    ts' := ComputeSim(m, l, ts, l1, Trunc32, [o], [v], v, scope, src, ts1, l2);
    EndCarries(m, l2, st.regs, scope, src, ts');
    SimMatches(m, l, ts, l2, scope, src, ts');
    assert m.Ev(o32, ts'.rho) == Some(W(v));
    hide Sim, Static, Includes, GenExp, Matches, Holds, Reach, Leads, Same, Carries;
    SwitchStep(m, ts', l2.code, o32, |st.blocks|, s.arms, v);
    StepLeads(m, ts');
    ReachLeads(m, ts, ts', m.Step(ts'));
  }

  lemma SwitchStep(m: Machine, ts: TState, code: seq<Instr>, o: Operand, dflt: nat, arms: seq<Arm>, v: Word)
    requires SealedWith(m, ts.block, code, Switch(o, dflt, ArmBBs(arms))) && ts.ix == |code|
    requires m.Ev(o, ts.rho) == Some(W(v)) && 0 <= v < |arms|
    ensures m.Step(ts) == m.Enter(ts, ArmBB(arms[v]))
  {}

  lemma SwitchCode(c: Context, m: Machine, st: Builder, s: Stm, scope: set<LVar>, lo: nat)
    requires s.SWITCH? && Static(c, st, s, scope, lo) && |c.target.stkOffset| == NUM_REGS && st.Ok()
    requires Includes(m, SwitchHead(c.target, st, s))
    ensures var (l1, o) := GenExp(c.target, st.OpenLine(), s.scrut);
      var (l2, o32) := Emit(l1, Trunc32, [o]);
      SealedWith(m, st.cur, l2.code, Switch(o32, |st.blocks|, ArmBBs(s.arms))) && BlockHas(m, st.cur, l2)
    ensures ScopedExp(s.scrut, scope) && |s.arms| < 0x8000_0000
    ensures SwitchHead(c.target, st, s).next == GenExp(c.target, st.OpenLine(), s.scrut).0.next + 1
  {
    StaticParts(c, st, s, scope, lo);
    var (l1, o) := GenExp(c.target, st.OpenLine(), s.scrut);
    var (l2, o32) := Emit(l1, Trunc32, [o]);
    hide Static, GenExp;
    PutGrows(st, l2);
    var st1 := st.Put(l2);
    var st2 := st1.(blocks := st1.blocks + [EMPTY_BLOCK.(term := Some(Unreachable))]);
    AppendGrows(st1, EMPTY_BLOCK.(term := Some(Unreachable)));
    IncludesSealed(m, st2, Switch(o32, |st.blocks|, ArmBBs(s.arms)));
  }

  // ----- branches -----

  lemma {:induction false} BranchStmSim(sem: Semantics, c: Context, m: Machine, st: Builder, s: Stm, scope: set<LVar>,
                                        lo: nat, src: SState, ts: TState)
    returns (r: Result)
    requires s.BRANCH? && Same(sem, c, m) && Static(c, st, s, scope, lo) && At(m, st, scope, src, ts)
    requires |src.regs| == NUM_REGS
    requires Includes(m, GenStm(c.target, c.clusters, st, s))
    ensures Leads(m, ts, r) && Agrees(m, st.frags, sem.Run(src, s), r)
    decreases s, 0
  {
    hide Static, At, Includes, Agrees, Leads, GenStm, ArmStatic, Carries, Same, BranchHead;
    var a, b := s.onTrue, s.onFalse;
    var n := NumArms(a.body) + 1;
    SameTarget(sem, c, m);
    StaticParts(c, st, s, scope, lo);
    var st1 := BranchHead(c.target, st, s);
    BranchStatic(c, st, s, scope, lo);
    BranchIncluded(c, m, st, s, scope, lo);
    var ts1, taken := BranchHeadSim(sem, c, m, st, s, scope, lo, src, ts);
    if taken {
      r := ArmSim(sem, c, m, st1, st1.regs, a, scope, lo, NumArms(b.body) + 1, src, ts1);
      LeadsTrans(m, ts, m.Enter(ts1, ArmBB(a)).state, r);
    } else {
      var st2 := GenStm(c.target, c.clusters, SetInsertPoint(st1, a.bb), a.body);
      GenStmVars(c.target, c.clusters, SetInsertPoint(st1, a.bb), a.body);
      CarriesLater(m, st1.next, st1.vMap, st2.next, st2.vMap, Binders(a.body), st1.regs, scope, src, ts1);
      r := ArmSim(sem, c, m, st2, st1.regs, b, scope, lo + n, 0, src, ts1);
      LeadsTrans(m, ts, m.Enter(ts1, ArmBB(b)).state, r);
    }
  }

  lemma BranchStatic(c: Context, st: Builder, s: Stm, scope: set<LVar>, lo: nat)
    requires s.BRANCH? && Static(c, st, s, scope, lo) && |c.target.stkOffset| == NUM_REGS && st.Ok()
    ensures var st1 := BranchHead(c.target, st, s); var a, b := s.onTrue, s.onFalse;
      var st2 := GenStm(c.target, c.clusters, SetInsertPoint(st1, a.bb), a.body);
      && st1.(regs := st1.regs) == st1 && a < s && b < s && st1.frags == st.frags
      && ArmStatic(c, st1, st1.regs, a, scope, lo, NumArms(b.body) + 1)
      && ArmStatic(c, st2, st1.regs, b, scope, lo + NumArms(a.body) + 1, 0)
  {
    hide GenStm, Between, Numbered, Scoped, UniqueBinders, NumArms, SameShape, Binders, BranchHead, VarsGrow, Static,
      ArmStatic, Steady;
    var a, b := s.onTrue, s.onFalse;
    var st1 := BranchHead(c.target, st, s);
    StaticParts(c, st, s, scope, lo);
    BranchHeadBetween(c, st, s, lo);
    BranchHeadFrags(c.target, st, s);
    BranchUnique(s);
    BranchParts(c, st1, s, scope, lo);
    MakeArmStatic(c, st1, st1.regs, a, scope, lo, NumArms(b.body) + 1);
    GenArmPhis(c, c.clusters, st1, st1.regs, a, scope, lo, NumArms(b.body) + 1);
    GenStmVars(c.target, c.clusters, SetInsertPoint(st1, a.bb), a.body);
    StillUnbound(st1.vMap, GenStm(c.target, c.clusters, SetInsertPoint(st1, a.bb), a.body).vMap, Binders(a.body),
      Binders(b.body));
    MakeArmStatic(c, GenStm(c.target, c.clusters, SetInsertPoint(st1, a.bb), a.body), st1.regs, b, scope,
      lo + NumArms(a.body) + 1, 0);
  }

  lemma BranchHeadFrags(t: TargetInfo, st: Builder, s: Stm)
    requires s.BRANCH? && |t.stkOffset| == NUM_REGS && st.Ok()
    ensures BranchHead(t, st, s).frags == st.frags && BranchHead(t, st, s).vMap == st.vMap
  {}

  lemma BranchUnique(s: Stm)
    requires s.BRANCH? && UniqueBinders(s)
    ensures UniqueBinders(s.onTrue.body) && UniqueBinders(s.onFalse.body)
    ensures Binders(s.onTrue.body) !! Binders(s.onFalse.body)
    ensures Binders(s) == Binders(s.onTrue.body) + Binders(s.onFalse.body)
  {}

  lemma BranchIncluded(c: Context, m: Machine, st: Builder, s: Stm, scope: set<LVar>, lo: nat)
    requires s.BRANCH? && Static(c, st, s, scope, lo) && |c.target.stkOffset| == NUM_REGS && st.Ok()
    requires Includes(m, GenStm(c.target, c.clusters, st, s))
    ensures var st1 := BranchHead(c.target, st, s); var a, b := s.onTrue, s.onFalse;
      var st2 := GenStm(c.target, c.clusters, SetInsertPoint(st1, a.bb), a.body);
      && Includes(m, st1) && Includes(m, st2) && st1.next <= st2.next && st2.frags == st1.frags
      && Includes(m, GenStm(c.target, c.clusters, SetInsertPoint(st2.(regs := st1.regs), b.bb), b.body))
  {
    hide Static, Includes, GenStm, BranchHead, Grows, NumArms, SetInsertPoint;
    var a, b := s.onTrue, s.onFalse;
    var n := NumArms(a.body) + 1;
    var st1 := BranchHead(c.target, st, s);
    var st2 := GenStm(c.target, c.clusters, SetInsertPoint(st1, a.bb), a.body);
    var st3 := GenStm(c.target, c.clusters, SetInsertPoint(st2.(regs := st1.regs), b.bb), b.body);
    GenStmBranch(c.target, c.clusters, st, s);
    BranchGrows(c, st, s, scope, lo);
    IncludesEarlier(m, st2, st3, Range(lo + n, lo + n + NumArms(b.body) + 1));
    IncludesEarlier(m, st1, st2, Range(lo, lo + n));
    GrowsNext(st1, st2, Range(lo, lo + n));
  }

  lemma BranchGrows(c: Context, st: Builder, s: Stm, scope: set<LVar>, lo: nat)
    requires s.BRANCH? && Static(c, st, s, scope, lo) && |c.target.stkOffset| == NUM_REGS && st.Ok()
    ensures var st1 := BranchHead(c.target, st, s); var a, b, n := s.onTrue, s.onFalse, NumArms(s.onTrue.body) + 1;
      var st2 := GenStm(c.target, c.clusters, SetInsertPoint(st1, a.bb), a.body);
      var st3 := GenStm(c.target, c.clusters, SetInsertPoint(st2.(regs := st1.regs), b.bb), b.body);
      Grows(st1, st2, Range(lo, lo + n)) && Grows(st2, st3, Range(lo + n, lo + n + NumArms(b.body) + 1))
  {
    hide Static, GenStm, BranchHead, ArmStatic, Grows, NumArms;
    var a, b, n := s.onTrue, s.onFalse, NumArms(s.onTrue.body) + 1;
    var st1 := BranchHead(c.target, st, s);
    BranchStatic(c, st, s, scope, lo);
    GenArmGrows(c, st1, st1.regs, a, scope, lo, NumArms(b.body) + 1);
    GenArmGrows(c, GenStm(c.target, c.clusters, SetInsertPoint(st1, a.bb), a.body), st1.regs, b, scope, lo + n, 0);
  }

  /** The branch goes where the source's test sends it. */
  lemma BranchHeadSim(sem: Semantics, c: Context, m: Machine, st: Builder, s: Stm, scope: set<LVar>, lo: nat,
                      src: SState, ts: TState)
    returns (ts': TState, taken: bool)
    requires s.BRANCH? && Same(sem, c, m) && Static(c, st, s, scope, lo) && At(m, st, scope, src, ts)
    requires |src.regs| == NUM_REGS && st.Ok()
    requires |c.target.stkOffset| == NUM_REGS && Includes(m, BranchHead(c.target, st, s))
    ensures var st1 := BranchHead(c.target, st, s); Carries(m, st1.next, st1.vMap, st1.regs, scope, src, ts')
    ensures taken <==> sem.Test(s.test, sem.Exps(s.args, src), src)
    ensures var b := ArmBB(if taken then s.onTrue else s.onFalse);
      m.Enter(ts', b).Running? ==> Leads(m, ts, m.Enter(ts', b))
  {
    var t, l := c.target, st.OpenLine();
    var (l1, os) := GenExps(t, l, s.args);
    var (l2, cond) := GenTest(t, l1, s.test, os);
    var ws := sem.Exps(s.args, src);
    BranchCode(c, m, st, s, scope, lo);
    SimStart(m, l, scope, src, ts);
    hide Static, Includes, GenExps, GenTest, Sim, AllHold, BlockHas, Matches;
    var ts1 := ExpsSim(sem, m, l, ts, l, s.args, scope, src, ts, l2);
    var v;
    ts', v := TestSim(sem, m, l, ts, l1, s.test, os, ws, scope, src, ts1, l2);
    taken := v != 0;
    SimMatches(m, l, ts, l2, scope, src, ts');
    EndCarries(m, l2, l2.regs, scope, src, ts');
    MatchesIx(m, l2, scope, src, ts');
    assert m.Ev(cond, ts'.rho) == Some(W(v));
    assert m.Step(ts') == m.Enter(ts', if taken then ArmBB(s.onTrue) else ArmBB(s.onFalse));
    StepLeads(m, ts');
    ReachLeads(m, ts, ts', m.Step(ts'));
  }

  lemma MatchesIx(m: Machine, l: Line, scope: set<LVar>, s: SState, ts: TState)
    requires Matches(m, l, scope, s, ts)
    ensures ts.ix == |l.code|
  {}

  lemma BranchCode(c: Context, m: Machine, st: Builder, s: Stm, scope: set<LVar>, lo: nat)
    requires s.BRANCH? && Static(c, st, s, scope, lo) && |c.target.stkOffset| == NUM_REGS && st.Ok()
    requires Includes(m, BranchHead(c.target, st, s))
    ensures var (l1, os) := GenExps(c.target, st.OpenLine(), s.args);
      var (l2, cond) := GenTest(c.target, l1, s.test, os);
      SealedWith(m, st.cur, l2.code, CondBr(cond, ArmBB(s.onTrue), ArmBB(s.onFalse))) && BlockHas(m, st.cur, l2)
    ensures ScopedExps(s.args, scope)
  {
    StaticParts(c, st, s, scope, lo);
    var (l1, os) := GenExps(c.target, st.OpenLine(), s.args);
    var (l2, cond) := GenTest(c.target, l1, s.test, os);
    hide Static, GenExps, GenTest;
    PutGrows(st, l2);
    IncludesSealed(m, st.Put(l2), CondBr(cond, ArmBB(s.onTrue), ArmBB(s.onFalse)));
  }

  // ----- traps -----

  lemma {:induction false} TrapStmSim(sem: Semantics, c: Context, m: Machine, st: Builder, s: Stm, scope: set<LVar>,
                                      lo: nat, src: SState, ts: TState)
    returns (r: Result)
    requires s.ARITH? && s.arith.TRAP? && Same(sem, c, m) && Static(c, st, s, scope, lo) && At(m, st, scope, src, ts)
    requires |src.regs| == NUM_REGS
    requires Includes(m, GenStm(c.target, c.clusters, st, s))
    ensures Leads(m, ts, r) && Agrees(m, st.frags, sem.Run(src, s), r)
    decreases s, 0
  {
    hide Static, At, Includes, Agrees, Leads, GenStm, Same, TrapHead, Steady;
    SameTarget(sem, c, m);
    StaticParts(c, st, s, scope, lo);
    var st1 := TrapHead(c.target, st, s);
    var (v, trapped) := m.prims.arith(s.arith.op, sem.Exps(s.args, src));
    TrapStatic(c, st, s, scope, lo);
    TrapGen(c.target, c.clusters, st, s);
    IncludesStm(c, m, st1, s.k, scope + {s.x}, lo);
    SamePrims(sem, c, m);
    var ts1 := TrapHeadSim(sem, c, m, st, s, scope, lo, src, ts);
    if trapped {
      r := OverflowTaken(c, m, st, s, scope, lo, src, ts1);
    } else {
      var ts2 := OverflowNotTaken(c, m, st, s, scope, lo, src, ts1, v);
      r := StmSim(sem, c, m, st1, s.k, scope + {s.x}, lo, src.(env := src.env[s.x := v]), ts2);
      LeadsTrans(m, ts1, ts2, r);
    }
    ReachLeads(m, ts, ts1, r);
  }

  lemma SamePrims(sem: Semantics, c: Context, m: Machine)
    requires Same(sem, c, m)
    ensures sem.prims == m.prims && c.target == m.target
  {}

  lemma TrapGen(t: TargetInfo, clusters: map<LVar, FragKind>, st: Builder, s: Stm)
    requires s.ARITH? && s.arith.TRAP? && st.Ok() && |t.stkOffset| == NUM_REGS
    ensures GenStm(t, clusters, st, s) == GenStm(t, clusters, TrapHead(t, st, s), s.k)
  {}

  lemma TrapStatic(c: Context, st: Builder, s: Stm, scope: set<LVar>, lo: nat)
    requires s.ARITH? && s.arith.TRAP? && Static(c, st, s, scope, lo) && |c.target.stkOffset| == NUM_REGS && st.Ok()
    ensures Static(c, TrapHead(c.target, st, s), s.k, scope + {s.x}, lo) && TrapHead(c.target, st, s).frags == st.frags
  {
    hide Steady, TrapHead;
    TrapHeadSteady(c, st, s, lo, NumArms(s));
    TrapHeadVars(c.target, st, s);
    TrapHeadFrags(c.target, st, s);
  }

  lemma TrapHeadFrags(t: TargetInfo, st: Builder, s: Stm)
    requires s.ARITH? && s.arith.TRAP? && st.Ok() && |t.stkOffset| == NUM_REGS
    ensures TrapHead(t, st, s).frags == st.frags
  {}

  /** The line, the flag and the result at the end of a trapping operation's block. */
  function TrapLine(t: TargetInfo, st: Builder, s: Stm): (Line, Operand, Operand)
    requires s.ARITH? && s.arith.TRAP? && st.Ok() && |t.stkOffset| == NUM_REGS
  {
    var (l1, os) := GenExps(t, st.OpenLine(), s.args);
    GenTrap(l1, s.arith.op, os)
  }

  /** The block ends in a conditional branch to the overflow block, whose phis have this block's registers. */
  ghost predicate TrapCode(c: Context, m: Machine, st: Builder, s: Stm)
    requires s.ARITH? && s.arith.TRAP? && st.Ok() && |c.target.stkOffset| == NUM_REGS
  {
    var (l, res, obit) := TrapLine(c.target, st, s);
    var st1 := TrapHead(c.target, st, s);
    var args := CreateArgs(c.target, st.regs, STD_FUN);
    && |l.regs| == NUM_REGS && st1.ovf.Some? && st1.ovf.value < |m.blocks| && |st.blocks| < |m.blocks|
    && SealedWith(m, st.cur, l.code, CondBr(obit, st1.ovf.value, |st.blocks|))
    && m.blocks[|st.blocks|].phis == []
    && IsOverflowBlock(c.target, m.blocks[st1.ovf.value])
    && |m.blocks[st1.ovf.value].phis| == |args|
    && forall i :: 0 <= i < |args| ==> Machine.Choose(m.blocks[st1.ovf.value].phis[i].incoming, st.cur) == args[i]
  }

  lemma TrapCodeIs(c: Context, m: Machine, st: Builder, s: Stm, scope: set<LVar>, lo: nat)
    requires s.ARITH? && s.arith.TRAP? && Static(c, st, s, scope, lo) && |c.target.stkOffset| == NUM_REGS && st.Ok()
    requires Includes(m, TrapHead(c.target, st, s))
    ensures TrapCode(c, m, st, s)
  {
    var t := c.target;
    var (l, res, obit) := TrapLine(t, st, s);
    StaticParts(c, st, s, scope, lo);
    var st1 := st.Put(Bind(l, s.x, res));
    assert TrapHead(t, st, s) == SplitOnTrap(t, st1, obit);
    PutSteady(c, st, Bind(l, s.x, res), lo, NumArms(s));
    assert st1.regs == st.regs && st1.cur == st.cur && |st1.blocks| == |st.blocks| && st1.blocks[st.cur].body == l.code;
    hide Static, TrapLine, TrapHead, Includes, WellPhied, SplitOnTrap, Steady;
    SplitCode(c, m, st1, obit);
  }

  lemma SplitCode(c: Context, m: Machine, st: Builder, obit: Operand)
    requires WellPhied(c, st) && Open(st) && Linked(st) && Includes(m, SplitOnTrap(c.target, st, obit))
    ensures var st1 := SplitOnTrap(c.target, st, obit); var args := CreateArgs(c.target, st.regs, STD_FUN);
      && st1.ovf.Some? && st1.ovf.value < |m.blocks| && |st.blocks| < |m.blocks|
      && SealedWith(m, st.cur, st.blocks[st.cur].body, CondBr(obit, st1.ovf.value, |st.blocks|))
      && m.blocks[|st.blocks|].phis == [] && IsOverflowBlock(c.target, m.blocks[st1.ovf.value])
      && |m.blocks[st1.ovf.value].phis| == |args|
      && forall i :: 0 <= i < |args| ==> Machine.Choose(m.blocks[st1.ovf.value].phis[i].incoming, st.cur) == args[i]
  {
    var t := c.target;
    var (sta, ok) := NewBB(st);
    AppendPhis(c, st, EMPTY_BLOCK);
    AppendGrows(st, EMPTY_BLOCK);
    LinkedGrows(st, sta, {});
    MakeOverflowPhis(c, sta);
    OverflowFacts(c, sta, ok);
    var stb := MakeOverflowBB(t, sta);
    assert stb.blocks[st.cur].body == st.blocks[st.cur].body;
    hide WellPhied, PhisExact, MakeOverflowBB, Includes, Receives, EdgesInside, IsOverflowBlock;
    FinishTrapCode(c, m, stb, obit, ok);
  }

  lemma FinishTrapCode(c: Context, m: Machine, st: Builder, obit: Operand, ok: nat)
    requires PhisExact(st.blocks) && Receives(c, st) && Linked(st) && Open(st) && st.ovf.Some?
    requires ok < |st.blocks| && st.blocks[ok] == EMPTY_BLOCK && st.ovf.value != st.cur
    requires |st.blocks[st.ovf.value].phis| == |MachineRegs(c.target)|
    requires Includes(m,
      SetInsertPoint(Seal(AddIncoming(st, st.ovf.value, CreateArgs(c.target, st.regs, STD_FUN)),
      CondBr(obit, st.ovf.value, ok)), Some(ok)))
    ensures var b := st.ovf.value; var args := CreateArgs(c.target, st.regs, STD_FUN);
      && b < |m.blocks| && ok < |m.blocks|
      && SealedWith(m, st.cur, st.blocks[st.cur].body, CondBr(obit, b, ok))
      && m.blocks[ok].phis == [] && IsOverflowBlock(c.target, m.blocks[b])
      && |m.blocks[b].phis| == |args|
      && forall i :: 0 <= i < |args| ==> Machine.Choose(m.blocks[b].phis[i].incoming, st.cur) == args[i]
  {
    var b, args := st.ovf.value, CreateArgs(c.target, st.regs, STD_FUN);
    var st1 := AddIncoming(st, b, args);
    AddIncomingGrows(st, b, args);
    ReceivesGrows(c, st, st1, {});
    IncludesSealed(m, st1, CondBr(obit, b, ok));
    OpenHasNoEdges(st);
    ChosenOnEdge(st, b, args, m.blocks);
    assert BlockGrows(st1.blocks[b], m.blocks[b]);
    assert BlockGrows(st1.blocks[ok], m.blocks[ok]);
    var n :| OverflowBlockFrom(c.target, n, st1.blocks[b]);
    assert OverflowBlockFrom(c.target, n, m.blocks[b]);
  }

  /** The state after the operation: its flag and its result are there. */
  ghost predicate TrapDone(m: Machine, t: TargetInfo, st: Builder, s: Stm, scope: set<LVar>, src: SState, ts: TState,
                           v: Word, trapped: bool)
    requires s.ARITH? && s.arith.TRAP? && st.Ok() && |t.stkOffset| == NUM_REGS
  {
    var (l, res, obit) := TrapLine(t, st, s);
    && ts.block == st.cur && Matches(m, l, scope, src, ts)
    && Holds(m, l.next, res, ts.rho, v) && Holds(m, l.next, obit, ts.rho, BoolWord(trapped))
  }

  lemma TrapHeadSim(sem: Semantics, c: Context, m: Machine, st: Builder, s: Stm, scope: set<LVar>, lo: nat,
                    src: SState, ts: TState)
    returns (ts': TState)
    requires s.ARITH? && s.arith.TRAP? && Same(sem, c, m) && Static(c, st, s, scope, lo) && At(m, st, scope, src, ts)
    requires |src.regs| == NUM_REGS
    requires st.Ok() && |c.target.stkOffset| == NUM_REGS && Includes(m, TrapHead(c.target, st, s))
    ensures var (v, trapped) := m.prims.arith(s.arith.op, sem.Exps(s.args, src));
      Reach(m, ts, ts') && TrapDone(m, c.target, st, s, scope, src, ts', v, trapped) && TrapCode(c, m, st, s)
  {
    var t, l := c.target, st.OpenLine();
    var (l1, os) := GenExps(t, l, s.args);
    var fin := GenTrap(l1, s.arith.op, os).0;
    TrapCodeIs(c, m, st, s, scope, lo);
    StaticParts(c, st, s, scope, lo);
    SimStart(m, l, scope, src, ts);
    assert BlockHas(m, st.cur, fin) && ScopedExps(s.args, scope);
    hide Static, Includes, GenExps, GenTrap, Sim, AllHold, BlockHas, TrapHead, TrapCode, IsOverflowBlock;
    var ts1 := ExpsSim(sem, m, l, ts, l, s.args, scope, src, ts, fin);
    ts' := TrapSim(sem, m, l1, s.arith.op, os, sem.Exps(s.args, src), scope, src, ts, l, ts1, fin);
    SimMatches(m, l, ts, fin, scope, src, ts');
  }

  /** On overflow control leaves through the shared block with the registers as they were before the operation. */
  lemma OverflowTaken(c: Context, m: Machine, st: Builder, s: Stm, scope: set<LVar>, lo: nat, src: SState, ts: TState)
    returns (r: Result)
    requires s.ARITH? && s.arith.TRAP? && st.Ok() && c.target == m.target && |c.target.stkOffset| == NUM_REGS
    requires |src.regs| == NUM_REGS
    requires exists v :: TrapDone(m, c.target, st, s, scope, src, ts, v, true)
    requires TrapCode(c, m, st, s)
    ensures Leads(m, ts, r) && Agrees(m, st.frags, Overflow(src.regs, src.mem), r)
  {
    var (l, res, obit) := TrapLine(c.target, st, s);
    var v :| TrapDone(m, c.target, st, s, scope, src, ts, v, true);
    var b := TrapHead(c.target, st, s).ovf.value;
    TrapLineRegs(c.target, st, s);
    RegArgsHold(m, l.next, l.regs, src.regs, ts.rho, ts.frame, STD_FUN);
    assert m.Step(ts) == m.Enter(ts, b);
    StepLeads(m, ts);
    r := EnterOverflow(m, l.next, b, CreateArgs(c.target, st.regs, STD_FUN), src.regs, ts);
    LeadsTrans(m, ts, m.Enter(ts, b).state, r);
  }

  lemma EnterOverflow(m: Machine, next: nat, b: nat, args: seq<Operand>, regs: seq<Word>, ts: TState)
    returns (r: Result)
    requires |m.target.stkOffset| == NUM_REGS && |regs| == NUM_REGS && b < |m.blocks|
    requires IsOverflowBlock(m.target, m.blocks[b])
    requires |m.blocks[b].phis| == |args| && AllHold(m, next, args, ts.rho, MachineWords(m.target, regs))
    requires RuntimeIn(m, ts.frame)
    requires forall i :: 0 <= i < |args| ==> Machine.Choose(m.blocks[b].phis[i].incoming, ts.block) == args[i]
    ensures m.Enter(ts, b).Running? && Leads(m, m.Enter(ts, b).state, r)
    ensures r == Exited(Raised(W(m.prims.raiseOverflow), Vals(MachineWords(m.target, regs)), ts.mem, ts.frame))
  {
    var mw := MachineWords(m.target, regs);
    var n: nat :| OverflowBlockFrom(m.target, n, m.blocks[b]);
    OverflowDsts(m.target, n, m.blocks[b]);
    EnterPhis(m, next, ts, b, args, mw);
    var ts1 := m.Enter(ts, b).state;
    assert ts1.block == b && ts1.ix == 0 && ts1.frame == ts.frame;
    OverflowRaises(m, n, ts1, regs);
    r := Exited(Raised(W(m.prims.raiseOverflow), Vals(mw), ts1.mem, ts1.frame));
  }

  lemma OverflowDsts(t: TargetInfo, n: nat, blk: Block)
    requires |t.stkOffset| == NUM_REGS && OverflowBlockFrom(t, n, blk)
    ensures |blk.phis| == |MachineRegs(t)| && DistinctPhis(blk.phis)
    ensures forall i :: 0 <= i < |blk.phis| ==> blk.phis[i].dst == n + i
  {
    forall i | 0 <= i < |blk.phis| ensures blk.phis[i].dst == n + i {
      assert OverflowBlock(t, n).phis[i] == Phi(n + i, []);
    }
  }

  lemma TrapLineRegs(t: TargetInfo, st: Builder, s: Stm)
    requires s.ARITH? && s.arith.TRAP? && st.Ok() && |t.stkOffset| == NUM_REGS
    ensures var l := TrapLine(t, st, s).0;
      l.regs == st.regs && l.vMap == st.vMap && l.next <= TrapHead(t, st, s).next
    ensures var (l, res, obit) := TrapLine(t, st, s); var st1 := TrapHead(t, st, s);
      st1.regs == st.regs && st1.vMap == Insert(st.vMap, s.x, res) && st1.cur == |st.blocks| && st1.Ok()
      && st1.blocks[st1.cur] == EMPTY_BLOCK
  {}

  /** Otherwise the continuation runs in the fresh block, with the result bound. */
  lemma OverflowNotTaken(c: Context, m: Machine, st: Builder, s: Stm, scope: set<LVar>, lo: nat, src: SState,
                         ts: TState, v: Word) returns (ts': TState)
    requires s.ARITH? && s.arith.TRAP? && st.Ok() && c.target == m.target && |c.target.stkOffset| == NUM_REGS
    requires |src.regs| == NUM_REGS
    requires TrapDone(m, c.target, st, s, scope, src, ts, v, false) && TrapCode(c, m, st, s) && s.x !in st.vMap
    ensures Leads(m, ts, Running(ts'))
    ensures At(m, TrapHead(c.target, st, s), scope + {s.x}, src.(env := src.env[s.x := v]), ts')
  {
    var (l, res, obit) := TrapLine(c.target, st, s);
    var ok := |st.blocks|;
    TrapLineRegs(c.target, st, s);
    EnterPlain(m, ts, ok);
    assert m.Step(ts) == m.Enter(ts, ok);
    StepLeads(m, ts);
    ts' := ts.(block := ok, ix := 0);
    assert Matches(m, l, scope, src, ts) && Holds(m, l.next, res, ts.rho, v);
    hide TrapHead, TrapLine, Leads, TrapCode, TrapDone;
    AtFresh(m, l, TrapHead(c.target, st, s), s.x, res, v, scope, src, ts, ts');
  }

  lemma AtFresh(m: Machine, l: Line, st: Builder, x: LVar, res: Operand, v: Word, scope: set<LVar>, src: SState,
                ts: TState, ts': TState)
    requires Matches(m, l, scope, src, ts) && Holds(m, l.next, res, ts.rho, v) && st.Ok() && l.next <= st.next
    requires x !in l.vMap
    requires st.regs == l.regs && st.vMap == Insert(l.vMap, x, res) && st.blocks[st.cur].body == []
    requires ts' == ts.(block := st.cur, ix := 0)
    ensures At(m, st, scope + {x}, src.(env := src.env[x := v]), ts')
  {}
}
