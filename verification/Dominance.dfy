/** The code generator keeps its function in static single assignment form: after every statement each
    name is defined once and available wherever it is used. */
module Dominance {
  import opened Common
  import opened CMRegisters
  import opened TargetIR
  import opened CFG
  import opened CodeBuilder
  import opened Growth
  import opened Phis
  import opened Simulation
  import opened Variables
  import opened Definitions
  import opened SSAForm

  /** What is known of the blocks so far: the names available at each block's start, the blocks that are
      still empty, and the blocks that no edge leads to. */
  datatype Ledger = Ledger(av: seq<set<nat>>, idle: set<nat>, unlinked: set<nat>)

  ghost predicate Blanks(st: Builder, g: Ledger) {
    && |g.av| == |st.blocks|
    && (forall b :: b in g.idle ==> b < |st.blocks| && st.blocks[b] == EMPTY_BLOCK && b != st.cur)
    && (forall b :: b in g.unlinked ==> b < |st.blocks| && g.av[b] == {})
    && (forall p :: 0 <= p < |st.blocks| ==> forall d :: d in Succs(st.blocks[p].term) ==> d !in g.unlinked)
  }

  /** A block that control may enter from anywhere. */
  ghost predicate Landing(g: Ledger, b: nat) { b < |g.av| && g.av[b] == {} && b !in g.idle && b !in g.unlinked }

  ghost predicate Landings(c: Context, st: Builder, g: Ledger) {
    && (forall lab :: lab in c.arity ==> lab in st.frags && Landing(g, st.frags[lab]))
    && (st.ovf.Some? ==> Landing(g, st.ovf.value))
  }

  ghost predicate Inv(c: Context, st: Builder, g: Ledger) {
    && st.Ok() && |c.target.stkOffset| == NUM_REGS
    && Certificate(st.blocks, g.av) && UniqueNames(st.blocks, st.next) && Blanks(st, g) && Landings(c, st, g)
  }

  /** The insertion block is open, and its line so far is in order. */
  ghost predicate Live(c: Context, st: Builder, g: Ledger, scope: set<LVar>) {
    && Open(st) && |g.av| == |st.blocks|
    && LineOk(c.target, Starts(st.blocks, g.av, st.cur), scope, st.OpenLine())
  }

  /** The ledger's entries outside a stretch of blocks stay. */
  ghost predicate Leaves(g: Ledger, g': Ledger, lo: nat, n: nat) {
    && |g.av| <= |g'.av|
    && (forall b :: 0 <= b < |g.av| && !(lo <= b < lo + n) ==> g'.av[b] == g.av[b])
    && (forall b :: b in g.idle && !(lo <= b < lo + n) ==> b in g'.idle)
    && (forall b :: b in g'.idle && b < |g.av| ==> b in g.idle)
    && (forall b :: b in g.unlinked && !(lo <= b < lo + n) ==> b in g'.unlinked)
  }

  ghost predicate Owned(g: Ledger, lo: nat, n: nat) {
    forall b :: lo <= b < lo + n ==> b in g.idle && b in g.unlinked
  }

  lemma LeavesTrans(g: Ledger, g1: Ledger, g2: Ledger, lo: nat, n: nat, k: nat)
    requires Leaves(g, g1, lo, n) && Leaves(g1, g2, lo + n, k)
    ensures Leaves(g, g2, lo, n + k)
  {}

  // ----- one builder operation at a time -----

  lemma CodeCertified(bs: seq<Block>, av: seq<set<nat>>, b: nat, code: seq<Instr>)
    requires Certificate(bs, av) && b < |bs| && bs[b].term.None?
    requires GoodCode(Starts(bs, av, b), code) && Dsts(bs[b].body) <= Dsts(code)
    ensures Certificate(bs[b := bs[b].(body := code)], av)
  {
    hide GoodCode, Dsts;
    var cs := bs[b := bs[b].(body := code)];
    OutGrows(bs, cs, av, av);
    forall x | 0 <= x < |cs| ensures CodeOk(cs, av, x) { assert CodeOk(bs, av, x); }
    forall x, i | 0 <= x < |cs| && 0 <= i < |cs[x].phis| ensures PhiOk(cs, av, cs[x].phis[i]) {
      assert PhiOk(bs, av, bs[x].phis[i]);
      PhiOkGrows(bs, cs, av, av, bs[x].phis[i]);
    }
  }

  ghost predicate OutWithin(bs: seq<Block>, cs: seq<Block>, av: seq<set<nat>>, aw: seq<set<nat>>) {
    && |bs| == |av| <= |cs| == |aw|
    && forall b :: 0 <= b < |bs| ==> Out(bs, av, b) <= Out(cs, aw, b)
  }

  lemma OutGrows(bs: seq<Block>, cs: seq<Block>, av: seq<set<nat>>, aw: seq<set<nat>>)
    requires |bs| == |av| <= |cs| == |aw|
    requires forall b :: 0 <= b < |bs| ==> av[b] <= aw[b] && Dsts(bs[b].body) <= Dsts(cs[b].body)
    requires forall b :: 0 <= b < |bs| ==> PhiDsts(bs[b].phis) == PhiDsts(cs[b].phis)
    ensures OutWithin(bs, cs, av, aw)
  {}

  lemma PhiOkGrows(bs: seq<Block>, cs: seq<Block>, av: seq<set<nat>>, aw: seq<set<nat>>, phi: Phi)
    requires OutWithin(bs, cs, av, aw) && PhiOk(bs, av, phi)
    ensures PhiOk(cs, aw, phi)
  {
    hide Out;
  }

  lemma PutInv(c: Context, st: Builder, g: Ledger, scope: set<LVar>, l: Line)
    requires Inv(c, st, g) && Open(st) && Adds(c.target, Starts(st.blocks, g.av, st.cur), scope, st.OpenLine(), l)
    ensures |l.regs| == NUM_REGS && Inv(c, st.Put(l), g) && Live(c, st.Put(l), g, scope)
    ensures Out(st.Put(l).blocks, g.av, st.cur) == Avail(Starts(st.blocks, g.av, st.cur), l)
  {
    PrefixDsts(st.OpenLine().code, l.code);
    CodeCertified(st.blocks, g.av, st.cur, l.code);
    NamesLine(st.blocks, st.cur, st.OpenLine(), l);
  }

  lemma {:induction false} PrefixDsts(code: seq<Instr>, code': seq<Instr>)
    requires code <= code'
    ensures Dsts(code) <= Dsts(code')
    decreases |code'|
  {
    if |code| < |code'| {
      assert code <= code'[..|code'| - 1];
      PrefixDsts(code, code'[..|code'| - 1]);
    } else {
      assert code == code';
    }
  }

  lemma SealInv(c: Context, st: Builder, g: Ledger, term: Term)
    requires Inv(c, st, g) && Open(st) && TermOk(Some(term), Out(st.blocks, g.av, st.cur))
    requires forall d :: d in Succs(Some(term)) ==>
      d < |st.blocks| && d !in g.unlinked && g.av[d] <= Out(st.blocks, g.av, st.cur)
    ensures Inv(c, Seal(st, term), g)
  {
    hide GoodCode, Dsts, NameAt;
    var bs, cs, b := st.blocks, Seal(st, term).blocks, st.cur;
    OutGrows(bs, cs, g.av, g.av);
    assert forall x :: 0 <= x < |bs| ==>
      Starts(bs, g.av, x) == Starts(cs, g.av, x) && Out(bs, g.av, x) == Out(cs, g.av, x);
    forall x | 0 <= x < |cs| ensures CodeOk(cs, g.av, x) { assert CodeOk(bs, g.av, x); }
    forall x, i | 0 <= x < |cs| && 0 <= i < |cs[x].phis| ensures PhiOk(cs, g.av, cs[x].phis[i]) {
      assert PhiOk(bs, g.av, bs[x].phis[i]);
      PhiOkGrows(bs, cs, g.av, g.av, bs[x].phis[i]);
    }
    SealNames(st, term);
  }

  lemma SealNames(st: Builder, term: Term)
    requires UniqueNames(st.blocks, st.next) && st.Ok()
    ensures UniqueNames(Seal(st, term).blocks, st.next)
  {
    NamesSame(st.blocks, Seal(st, term).blocks, st.next);
  }

  lemma IncomingInv(c: Context, st: Builder, g: Ledger, b: nat, args: seq<Operand>)
    requires Inv(c, st, g) && b < |st.blocks| && b !in g.idle && AllDefined(args, Out(st.blocks, g.av, st.cur))
    ensures var st' := AddIncoming(st, b, args);
      Inv(c, st', g) && Out(st'.blocks, g.av, st.cur) == Out(st.blocks, g.av, st.cur)
  {
    hide GoodCode, Dsts;
    var bs, cs := st.blocks, AddIncoming(st, b, args).blocks;
    assert PhiDsts(cs[b].phis) == PhiDsts(bs[b].phis) by {
      assert forall i :: 0 <= i < |bs[b].phis| ==> cs[b].phis[i].dst == bs[b].phis[i].dst;
    }
    OutGrows(bs, cs, g.av, g.av);
    assert forall x :: 0 <= x < |bs| ==>
      Starts(bs, g.av, x) == Starts(cs, g.av, x) && Out(bs, g.av, x) == Out(cs, g.av, x);
    forall x | 0 <= x < |cs| ensures CodeOk(cs, g.av, x) { assert CodeOk(bs, g.av, x); }
    forall x, i | 0 <= x < |cs| && 0 <= i < |cs[x].phis| ensures PhiOk(cs, g.av, cs[x].phis[i]) {
      assert PhiOk(bs, g.av, bs[x].phis[i]);
      PhiOkGrows(bs, cs, g.av, g.av, bs[x].phis[i]);
    }
    IncomingNames(st, b, args);
  }

  lemma IncomingNames(st: Builder, b: nat, args: seq<Operand>)
    requires UniqueNames(st.blocks, st.next) && b < |st.blocks|
    ensures UniqueNames(AddIncoming(st, b, args).blocks, st.next)
  {
    NamesSame(st.blocks, AddIncoming(st, b, args).blocks, st.next);
  }

  /** A new block without edges, whose names are the next ones. */
  ghost predicate NewBlock(blk: Block, next: nat, s: set<nat>) {
    && Succs(blk.term) == [] && TermOk(blk.term, {}) && GoodCode(s + PhiDsts(blk.phis), blk.body)
    && (forall i :: 0 <= i < |blk.phis| ==> blk.phis[i].incoming == [])
    && forall k :: 0 <= k < NumNames(blk) ==> NameAt(blk, k) == next + k
  }

  function Appended(st: Builder, blk: Block): Builder {
    st.(blocks := st.blocks + [blk], next := st.next + NumNames(blk))
  }

  lemma AppendInv(c: Context, st: Builder, g: Ledger, blk: Block, s: set<nat>)
    requires Inv(c, st, g) && NewBlock(blk, st.next, s)
    ensures Inv(c, Appended(st, blk), g.(av := g.av + [s]))
    ensures Out(Appended(st, blk).blocks, g.av + [s], st.cur) == Out(st.blocks, g.av, st.cur)
  {
    AppendCertified(st.blocks, g.av, blk, s, st.next);
    NamesAppend(st.blocks, blk, st.next, st.next + NumNames(blk));
    hide Certificate, UniqueNames, GoodCode, NameAt, NumNames;
  }

  lemma AppendCertified(bs: seq<Block>, av: seq<set<nat>>, blk: Block, s: set<nat>, next: nat)
    requires Certificate(bs, av) && NewBlock(blk, next, s)
    ensures Certificate(bs + [blk], av + [s])
  {
    hide GoodCode, Dsts, NameAt;
    var cs, aw := bs + [blk], av + [s];
    OutGrows(bs, cs, av, aw);
    forall x | 0 <= x < |cs| ensures CodeOk(cs, aw, x) {
      if x < |bs| { assert CodeOk(bs, av, x); }
    }
    forall x, i | 0 <= x < |cs| && 0 <= i < |cs[x].phis| ensures PhiOk(cs, aw, cs[x].phis[i]) {
      if x < |bs| {
        assert PhiOk(bs, av, bs[x].phis[i]);
        PhiOkGrows(bs, cs, av, aw, bs[x].phis[i]);
      }
    }
  }

  /** Arms about to be branched to start with the given names. */
  function Mark(g: Ledger, arms: set<nat>, s: set<nat>): Ledger {
    Ledger(seq(|g.av|, b requires 0 <= b < |g.av| => if b in arms then s else g.av[b]), g.idle, g.unlinked - arms)
  }

  lemma MarkInv(c: Context, st: Builder, g: Ledger, arms: set<nat>, s: set<nat>)
    requires Inv(c, st, g) && arms <= g.idle && arms <= g.unlinked
    ensures Inv(c, st, Mark(g, arms, s)) && Out(st.blocks, Mark(g, arms, s).av, st.cur) == Out(st.blocks, g.av, st.cur)
  {
    hide GoodCode, Dsts, UniqueNames;
    var bs, aw := st.blocks, Mark(g, arms, s).av;
    assert st.cur !in arms;
    OutGrows(bs, bs, g.av, aw);
    forall x | 0 <= x < |bs| ensures CodeOk(bs, aw, x) {
      assert CodeOk(bs, g.av, x);
      if x in arms {
        assert bs[x] == EMPTY_BLOCK;
        NoCode(Starts(bs, aw, x));
      }
    }
    forall x, i | 0 <= x < |bs| && 0 <= i < |bs[x].phis| ensures PhiOk(bs, aw, bs[x].phis[i]) {
      assert PhiOk(bs, g.av, bs[x].phis[i]);
      PhiOkGrows(bs, bs, g.av, aw, bs[x].phis[i]);
    }
  }

  lemma NoCode(names: set<nat>)
    ensures GoodCode(names, []) && Dsts([]) == {}
  {}

  /** Code generation moves to an idle block. */
  lemma EnterInv(c: Context, st: Builder, g: Ledger, saved: seq<Option<Operand>>, b: nat, scope: set<LVar>)
    requires Inv(c, st, g) && b in g.idle && RegsOk(c.target, saved, g.av[b]) && VarsOk(st.vMap, scope, g.av[b])
    ensures var st' := SetInsertPoint(st.(regs := saved), Some(b)); var g' := g.(idle := g.idle - {b});
      Inv(c, st', g') && Live(c, st', g', scope) && st'.vMap == st.vMap
  {
    assert st.blocks[b] == EMPTY_BLOCK;
    NoCode(g.av[b]);
    assert Avail(Starts(st.blocks, g.av, b), Line([], st.next, st.vMap, saved)) == g.av[b];
  }

  lemma LiveRegs(c: Context, st: Builder, g: Ledger, scope: set<LVar>)
    requires Live(c, st, g, scope)
    ensures st.Ok() && RegsOk(c.target, st.regs, Out(st.blocks, g.av, st.cur))
    ensures VarsOk(st.vMap, scope, Out(st.blocks, g.av, st.cur))
    ensures LineOk(c.target, Starts(st.blocks, g.av, st.cur), scope, st.OpenLine())
  {}

  // ----- arms -----

  /** An arm whose block is empty and starts with names s, and whose own arms are still free. */
  ghost predicate ArmOk(arm: Arm, lo: nat, g: Ledger, s: set<nat>) {
    && arm.bb == Some(lo) && lo < |g.av| && g.av[lo] == s && lo in g.idle
    && Owned(g, lo + 1, NumArms(arm.body)) && Numbered(arm.body, lo + 1)
  }

  ghost predicate ArmsOk(arms: seq<Arm>, lo: nat, g: Ledger, s: set<nat>)
    decreases arms
  {
    arms == [] ||
    var front, last := arms[..|arms| - 1], arms[|arms| - 1];
    ArmsOk(front, lo, g, s) && ArmOk(last, lo + NumArmsOf(front), g, s)
  }

  /** Two ledgers agree on a stretch of blocks. */
  ghost predicate AgreeOn(g: Ledger, g': Ledger, lo: nat, n: nat) {
    |g.av| <= |g'.av| && forall b :: lo <= b < lo + n ==>
      && (b < |g.av| ==> g'.av[b] == g.av[b])
      && (b in g.idle ==> b in g'.idle) && (b in g.unlinked ==> b in g'.unlinked)
  }

  lemma {:induction false} ArmsOkKept(arms: seq<Arm>, lo: nat, g: Ledger, g': Ledger, s: set<nat>)
    requires ArmsOk(arms, lo, g, s) && AgreeOn(g, g', lo, NumArmsOf(arms))
    ensures ArmsOk(arms, lo, g', s)
    decreases arms
  {
    if arms != [] {
      var last := arms[|arms| - 1];
      assert last.body < last;
      ArmsOkKept(arms[..|arms| - 1], lo, g, g', s);
    }
  }

  /** The blocks at which arms start. */
  function ArmStarts(arms: seq<Arm>): set<nat> {
    if arms == [] then {} else ArmStarts(arms[..|arms| - 1]) + {ArmBB(arms[|arms| - 1])}
  }

  lemma {:induction false} ArmStartsHas(arms: seq<Arm>, i: nat)
    requires i < |arms|
    ensures ArmBB(arms[i]) in ArmStarts(arms)
  {
    if i < |arms| - 1 { ArmStartsHas(arms[..|arms| - 1], i); }
  }

  lemma {:induction false} MarkArms(arms: seq<Arm>, lo: nat, g: Ledger, s: set<nat>)
    requires NumberedArms(arms, lo) && Owned(g, lo, NumArmsOf(arms)) && (forall b :: b in g.idle ==> b < |g.av|)
    ensures ArmsOk(arms, lo, Mark(g, ArmStarts(arms), s), s)
    ensures forall b :: b in ArmStarts(arms) ==> lo <= b < lo + NumArmsOf(arms)
    decreases arms
  {
    if arms != [] {
      var front, last := arms[..|arms| - 1], arms[|arms| - 1];
      assert last.body < last;
      MarkArms(front, lo, g, s);
      var g1, g' := Mark(g, ArmStarts(front), s), Mark(g, ArmStarts(arms), s);
      ArmsOkKept(front, lo, g1, g', s);
      var mid := lo + NumArmsOf(front);
      assert lo <= mid < lo + NumArmsOf(arms) && mid in g.idle && ArmBB(last) == mid;
      assert ArmOk(last, mid, g', s);
    }
  }

  /** What every arm may rely on. */
  ghost predicate ArmEnv(c: Context, vMap: map<LVar, Operand>, saved: seq<Option<Operand>>, scope: set<LVar>,
                         s: set<nat>) {
    RegsOk(c.target, saved, s) && VarsOk(vMap, scope, s) && |saved| == NUM_REGS
  }

  /** A statement that is in scope and whose variables have not been bound. */
  ghost predicate StmOk(c: Context, s: Stm, scope: set<LVar>, vMap: map<LVar, Operand>) {
    Scoped(c, s, scope) && UniqueBinders(s) && Binders(s) !! vMap.Keys
  }

  ghost predicate ArmsStmOk(c: Context, arms: seq<Arm>, scope: set<LVar>, vMap: map<LVar, Operand>) {
    ScopedArms(c, arms, scope) && UniqueArmBinders(arms) && ArmBinders(arms) !! vMap.Keys
  }

  lemma {:induction false} ArmInv(c: Context, st: Builder, saved: seq<Option<Operand>>, arm: Arm, scope: set<LVar>,
                                  lo: nat, g: Ledger, s: set<nat>)
    returns (g': Ledger)
    requires Inv(c, st, g) && st.Ok() && |c.target.stkOffset| == NUM_REGS && |saved| == NUM_REGS
    requires ArmOk(arm, lo, g, s) && ArmEnv(c, st.vMap, saved, scope, s) && StmOk(c, arm.body, scope, st.vMap)
    ensures Inv(c, GenStm(c.target, c.clusters, SetInsertPoint(st.(regs := saved), arm.bb), arm.body), g')
    ensures Leaves(g, g', lo, NumArms(arm.body) + 1)
    decreases arm
  {
    hide GenStm, Inv, StmOk, Numbered, NumArms, Live, RegsOk, VarsOk;
    EnterInv(c, st, g, saved, lo, scope);
    var g1 := g.(idle := g.idle - {lo});
    g' := StmInv(c, SetInsertPoint(st.(regs := saved), arm.bb), arm.body, scope, lo + 1, g1);
  }

  lemma {:induction false} ArmsInv(c: Context, st: Builder, saved: seq<Option<Operand>>, arms: seq<Arm>,
                                   scope: set<LVar>, lo: nat, g: Ledger, s: set<nat>)
    returns (g': Ledger)
    requires Inv(c, st, g) && st.Ok() && |c.target.stkOffset| == NUM_REGS && |saved| == NUM_REGS
    requires ArmsOk(arms, lo, g, s) && ArmEnv(c, st.vMap, saved, scope, s) && ArmsStmOk(c, arms, scope, st.vMap)
    ensures Inv(c, GenArms(c.target, c.clusters, st, saved, arms), g')
    ensures Leaves(g, g', lo, NumArmsOf(arms))
    decreases arms
  {
    hide GenArms, GenStm, Inv, ArmEnv, ArmsStmOk, StmOk, ArmBinders, Binders, NumArms, NumArmsOf, Numbered, ArmsOk,
      ArmOk, Leaves;
    g' := g;
    ArmsUnfold(c, st, saved, arms, lo, g, s);
    if arms != [] {
      var front, last := arms[..|arms| - 1], arms[|arms| - 1];
      var n := NumArmsOf(front);
      ArmsStmParts(c, arms, scope, st.vMap);
      var st1 := GenArms(c.target, c.clusters, st, saved, front);
      var g1 := ArmsInv(c, st, saved, front, scope, lo, g, s);
      LaterArm(c, st, st1, saved, front, last, scope, lo, g, g1, s);
      g' := ArmInv(c, st1, saved, last, scope, lo + n, g1, s);
      LeavesTrans(g, g1, g', lo, n, NumArms(last.body) + 1);
    }
  }

  lemma ArmsUnfold(c: Context, st: Builder, saved: seq<Option<Operand>>, arms: seq<Arm>, lo: nat, g: Ledger,
                   s: set<nat>)
    requires ArmsOk(arms, lo, g, s) && st.Ok() && |c.target.stkOffset| == NUM_REGS && |saved| == NUM_REGS
    ensures arms == [] ==>
      NumArmsOf(arms) == 0 && Leaves(g, g, lo, 0) && GenArms(c.target, c.clusters, st, saved, arms) == st
    ensures arms != [] ==>
      var front, last := arms[..|arms| - 1], arms[|arms| - 1];
      var st1 := GenArms(c.target, c.clusters, st, saved, front);
      && last.body < last && NumArmsOf(arms) == NumArmsOf(front) + (NumArms(last.body) + 1)
      && ArmsOk(front, lo, g, s) && ArmOk(last, lo + NumArmsOf(front), g, s)
      && GenArms(c.target, c.clusters, st, saved, arms)
        == GenStm(c.target, c.clusters, SetInsertPoint(st1.(regs := saved), last.bb), last.body)
  {
    if arms != [] {
      var last := arms[|arms| - 1];
      assert last.body < last;
    }
  }

  lemma ArmsStmParts(c: Context, arms: seq<Arm>, scope: set<LVar>, vMap: map<LVar, Operand>)
    requires arms != [] && ArmsStmOk(c, arms, scope, vMap)
    ensures var front, last := arms[..|arms| - 1], arms[|arms| - 1];
      ArmsStmOk(c, front, scope, vMap) && StmOk(c, last.body, scope, vMap) && ArmBinders(front) !! Binders(last.body)
  {
    var last := arms[|arms| - 1];
    assert last.body < last;
  }

  /** What the next arm relies on survives the arms before it. */
  lemma LaterArm(c: Context, st: Builder, st1: Builder, saved: seq<Option<Operand>>, front: seq<Arm>, last: Arm,
                 scope: set<LVar>, lo: nat, g: Ledger, g1: Ledger, s: set<nat>)
    requires st.Ok() && |c.target.stkOffset| == NUM_REGS && |saved| == NUM_REGS
    requires st1 == GenArms(c.target, c.clusters, st, saved, front)
    requires ArmOk(last, lo + NumArmsOf(front), g, s) && ArmEnv(c, st.vMap, saved, scope, s)
    requires StmOk(c, last.body, scope, st.vMap)
    requires ArmBinders(front) !! Binders(last.body) && Leaves(g, g1, lo, NumArmsOf(front))
    ensures ArmOk(last, lo + NumArmsOf(front), g1, s) && ArmEnv(c, st1.vMap, saved, scope, s)
    ensures StmOk(c, last.body, scope, st1.vMap)
  {
    hide GenArms, NumArmsOf, NumArms, Numbered, ArmBinders, Binders, UniqueBinders, Scoped, RegsOk;
    GenArmsVars(c.target, c.clusters, st, saved, front);
  }

  // ----- statements -----

  lemma {:induction false} StmInv(c: Context, st: Builder, s: Stm, scope: set<LVar>, lo: nat, g: Ledger)
    returns (g': Ledger)
    requires Inv(c, st, g) && Live(c, st, g, scope) && st.Ok() && |c.target.stkOffset| == NUM_REGS
    requires Numbered(s, lo) && Owned(g, lo, NumArms(s)) && StmOk(c, s, scope, st.vMap)
    ensures Inv(c, GenStm(c.target, c.clusters, st, s), g') && Leaves(g, g', lo, NumArms(s))
    decreases s, 2
  {
    if IsSimple(s) {
      g' := SimpleInv(c, st, s, scope, lo, g);
    } else {
      StmComplex(c, s, scope, st.vMap);
      hide Inv, Live, GenStm, Numbered, NumArms, Owned, StmOk, Leaves;
      match s
      case ARITH(_, _, _, _) => g' := TrapInv(c, st, s, scope, lo, g);
      case APPLY(_, _) => g' := g; CallInv(c, st, s, scope, lo, g);
      case THROW(_, _) => g' := g; CallInv(c, st, s, scope, lo, g);
      case GOTO(_, _) => g' := g; GotoInv(c, st, s, scope, lo, g);
      case SWITCH(_, _) => g' := SwitchInv(c, st, s, scope, lo, g);
      case BRANCH(_, _, _, _) => g' := BranchInv(c, st, s, scope, lo, g);
    }
  }

  lemma StmComplex(c: Context, s: Stm, scope: set<LVar>, vMap: map<LVar, Operand>)
    requires StmOk(c, s, scope, vMap) && !IsSimple(s)
    ensures !s.LET? && !s.ALLOC? && !s.SETTER? && !s.CALLGC? && (s.ARITH? ==> s.arith.TRAP?)
  {}

  lemma {:induction false} SimpleInv(c: Context, st: Builder, s: Stm, scope: set<LVar>, lo: nat, g: Ledger)
    returns (g': Ledger)
    requires IsSimple(s) && Inv(c, st, g) && Live(c, st, g, scope) && st.Ok() && |c.target.stkOffset| == NUM_REGS
    requires Numbered(s, lo) && Owned(g, lo, NumArms(s)) && StmOk(c, s, scope, st.vMap)
    ensures Inv(c, GenStm(c.target, c.clusters, st, s), g') && Leaves(g, g', lo, NumArms(s))
    decreases s, 0
  {
    var st1 := SimpleStep(c, st, s, scope, lo, g);
    hide Inv, Live, GenStm, Numbered, NumArms, Owned, StmOk, Leaves, GenSimple;
    g' := StmInv(c, st1, Cont(s), scope + Bound(s), lo, g);
  }

  /** The state in which a simple statement's continuation is generated. */
  lemma SimpleStep(c: Context, st: Builder, s: Stm, scope: set<LVar>, lo: nat, g: Ledger) returns (st1: Builder)
    requires IsSimple(s) && Inv(c, st, g) && Live(c, st, g, scope) && st.Ok() && |c.target.stkOffset| == NUM_REGS
    requires Numbered(s, lo) && StmOk(c, s, scope, st.vMap)
    ensures |GenSimple(c.target, st.OpenLine(), s).regs| == NUM_REGS
    ensures st1 == st.Put(GenSimple(c.target, st.OpenLine(), s)) && st1.Ok()
    ensures Inv(c, st1, g) && Live(c, st1, g, scope + Bound(s)) && StmOk(c, Cont(s), scope + Bound(s), st1.vMap)
    ensures Cont(s) < s && Numbered(Cont(s), lo) && NumArms(Cont(s)) == NumArms(s)
    ensures GenStm(c.target, c.clusters, st, s) == GenStm(c.target, c.clusters, st1, Cont(s))
  {
    var l := GenSimple(c.target, st.OpenLine(), s);
    st1 := st.Put(l);
    SimpleCont(c, st, s, scope);
    SimpleArms(s, lo);
    GenStmSimple(c.target, c.clusters, st, s);
    assert Open(st);
    LiveRegs(c, st, g, scope);
    hide Inv, Live, GenStm, Numbered, NumArms, StmOk, GenSimple, Adds, LineOk, RegsOk, VarsOk;
    SimpleAdds(c, Starts(st.blocks, g.av, st.cur), scope, st.OpenLine(), s);
    PutInv(c, st, g, scope + Bound(s), l);
  }

  lemma SimpleCont(c: Context, st: Builder, s: Stm, scope: set<LVar>)
    requires IsSimple(s) && StmOk(c, s, scope, st.vMap) && st.Ok() && |c.target.stkOffset| == NUM_REGS
    ensures SimpleOk(c, s, scope, st.vMap)
    ensures StmOk(c, Cont(s), scope + Bound(s), GenSimple(c.target, st.OpenLine(), s).vMap)
  {
    ScopedCont(c, s, scope);
    hide GenSimple;
    SimpleVars(c.target, st.OpenLine(), s);
  }

  lemma CallInv(c: Context, st: Builder, s: Stm, scope: set<LVar>, lo: nat, g: Ledger)
    requires (s.APPLY? || s.THROW?) && Inv(c, st, g) && Live(c, st, g, scope) && st.Ok()
    requires |c.target.stkOffset| == NUM_REGS
    requires StmOk(c, s, scope, st.vMap)
    ensures Inv(c, GenStm(c.target, c.clusters, st, s), g) && Leaves(g, g, lo, NumArms(s))
  {
    var kind := if s.APPLY? then CalleeKind(c.clusters, s.fn) else STD_CONT;
    var l := GenCall(c.target, st.OpenLine(), s.fn, kind, s.args);
    assert GenStm(c.target, c.clusters, st, s) == Seal(st.Put(l), RetVoid);
    assert ScopedExp(s.fn, scope) && ScopedExps(s.args, scope);
    assert Open(st);
    LiveRegs(c, st, g, scope);
    hide Inv, Live, GenStm, Adds, GenCall, LineOk, RegsOk, VarsOk, StmOk;
    CallAdds(c.target, Starts(st.blocks, g.av, st.cur), scope, st.OpenLine(), s.fn, kind, s.args);
    PutInv(c, st, g, scope, l);
    assert Open(st.Put(l)) && Succs(Some(RetVoid)) == [];
    SealInv(c, st.Put(l), g, RetVoid);
  }

  lemma GotoInv(c: Context, st: Builder, s: Stm, scope: set<LVar>, lo: nat, g: Ledger)
    requires s.GOTO? && Inv(c, st, g) && Live(c, st, g, scope) && st.Ok() && |c.target.stkOffset| == NUM_REGS
    requires StmOk(c, s, scope, st.vMap)
    ensures Inv(c, GenStm(c.target, c.clusters, st, s), g) && Leaves(g, g, lo, NumArms(s))
  {
    var names, l := Starts(st.blocks, g.av, st.cur), st.OpenLine();
    assert Open(st);
    LiveRegs(c, st, g, scope);
    AddsRefl(c.target, names, scope, l);
    ExpsAdds(c.target, names, scope, l, l, s.args);
    var (l1, os) := GenExps(c.target, l, s.args);
    CreateArgsDefined(c.target, l1.regs, INTERNAL, Avail(names, l1)) by { AddsOk(c.target, names, scope, l, l1); }
    var args := CreateArgs(c.target, l.regs, INTERNAL) + os;
    assert GenStm(c.target, c.clusters, st, s) == SealJump(st.Put(l1), s.lab, args);
    assert s.lab in c.arity;
    hide GenStm, Adds, GenExps, LineOk, RegsOk, VarsOk, StmOk, CreateArgs, Avail;
    PutInv(c, st, g, scope, l1);
    JumpInv(c, st.Put(l1), g, s.lab, args);
  }

  lemma JumpInv(c: Context, st: Builder, g: Ledger, lab: LVar, args: seq<Operand>)
    requires Inv(c, st, g) && Open(st) && lab in c.arity && AllDefined(args, Out(st.blocks, g.av, st.cur))
    ensures Inv(c, SealJump(st, lab, args), g)
  {
    assert Landing(g, st.frags[lab]);
    hide Certificate, UniqueNames;
    IncomingInv(c, st, g, st.frags[lab], args);
    assert Succs(Some(Br(st.frags[lab]))) == [st.frags[lab]];
    SealInv(c, AddIncoming(st, st.frags[lab], args), g, Br(st.frags[lab]));
  }

  // ----- traps -----

  lemma {:induction false} TrapInv(c: Context, st: Builder, s: Stm, scope: set<LVar>, lo: nat, g: Ledger)
    returns (g': Ledger)
    requires s.ARITH? && s.arith.TRAP? && Inv(c, st, g) && Live(c, st, g, scope) && st.Ok()
    requires |c.target.stkOffset| == NUM_REGS
    requires Numbered(s, lo) && Owned(g, lo, NumArms(s)) && StmOk(c, s, scope, st.vMap)
    ensures Inv(c, GenStm(c.target, c.clusters, st, s), g') && Leaves(g, g', lo, NumArms(s))
    decreases s, 0
  {
    hide *;
    var st1 := TrapHead(c.target, st, s);
    TrapParts(c, st, s, scope, lo);
    var g1 := TrapHeadInv(c, st, s, scope, g);
    OwnedAfter(g, g1, lo, NumArms(s));
    g' := StmInv(c, st1, s.k, scope + {s.x}, lo, g1);
    LeavesNone(g, g1, g', lo, NumArms(s));
  }

  lemma TrapParts(c: Context, st: Builder, s: Stm, scope: set<LVar>, lo: nat)
    requires s.ARITH? && s.arith.TRAP? && st.Ok() && |c.target.stkOffset| == NUM_REGS && Numbered(s, lo)
    requires StmOk(c, s, scope, st.vMap)
    ensures s.k < s && NumArms(s.k) == NumArms(s) && Numbered(s.k, lo)
    ensures StmOk(c, s.k, scope + {s.x}, TrapHead(c.target, st, s).vMap)
    ensures GenStm(c.target, c.clusters, st, s) == GenStm(c.target, c.clusters, TrapHead(c.target, st, s), s.k)
  {
    hide TrapHead;
    TrapHeadVars(c.target, st, s);
  }

  lemma OwnedAfter(g: Ledger, g1: Ledger, lo: nat, n: nat)
    requires Owned(g, lo, n) && Leaves(g, g1, 0, 0)
    ensures Owned(g1, lo, n)
  {}

  lemma LeavesNone(g: Ledger, g1: Ledger, g2: Ledger, lo: nat, n: nat)
    requires Leaves(g, g1, 0, 0) && Leaves(g1, g2, lo, n)
    ensures Leaves(g, g2, lo, n)
  {}

  lemma TrapHeadInv(c: Context, st: Builder, s: Stm, scope: set<LVar>, g: Ledger) returns (g': Ledger)
    requires s.ARITH? && s.arith.TRAP? && Inv(c, st, g) && Live(c, st, g, scope) && st.Ok()
    requires |c.target.stkOffset| == NUM_REGS
    requires StmOk(c, s, scope, st.vMap)
    ensures Inv(c, TrapHead(c.target, st, s), g') && Live(c, TrapHead(c.target, st, s), g', scope + {s.x})
    ensures Leaves(g, g', 0, 0)
  {
    var names, l := Starts(st.blocks, g.av, st.cur), st.OpenLine();
    assert Open(st) && ScopedExps(s.args, scope) && s.x !in st.vMap;
    LiveRegs(c, st, g, scope);
    AddsRefl(c.target, names, scope, l);
    hide Inv, Live, StmOk, LineOk, RegsOk, VarsOk, Adds, GenExps, GenTrap, SplitOnTrap, Leaves, Open;
    ExpsAdds(c.target, names, scope, l, l, s.args);
    var (l1, os) := GenExps(c.target, l, s.args);
    TrapAdds(c.target, names, scope, l, l1, s.arith.op, os);
    var (l2, res, obit) := GenTrap(l1, s.arith.op, os);
    BindAdds(c.target, names, scope, l, l2, s.x, res);
    PutInv(c, st, g, scope + {s.x}, Bind(l2, s.x, res));
    g' := SplitInv(c, st.Put(Bind(l2, s.x, res)), obit, scope + {s.x}, g);
  }

  lemma SplitInv(c: Context, st: Builder, obit: Operand, scope: set<LVar>, g: Ledger) returns (g': Ledger)
    requires Inv(c, st, g) && Live(c, st, g, scope) && st.Ok() && |c.target.stkOffset| == NUM_REGS
    requires Defined(obit, Out(st.blocks, g.av, st.cur))
    ensures Inv(c, SplitOnTrap(c.target, st, obit), g') && Live(c, SplitOnTrap(c.target, st, obit), g', scope)
    ensures Leaves(g, g', 0, 0)
  {
    hide *;
    LiveRegs(c, st, g, scope);
    LiveOpen(c, st, g, scope);
    var s := Out(st.blocks, g.av, st.cur);
    var ok := |st.blocks|;
    g' := BeforeSplit(c, st, g);
    SplitUnfold(c.target, st, obit);
    FinishTrapInv(c, MakeOverflowBB(c.target, NewBB(st).0), obit, ok, scope, g', s);
    g' := g'.(idle := g'.idle - {ok});
  }

  lemma LiveOpen(c: Context, st: Builder, g: Ledger, scope: set<LVar>)
    requires Live(c, st, g, scope)
    ensures Open(st) && |g.av| == |st.blocks|
  {}

  lemma SplitUnfold(t: TargetInfo, st: Builder, obit: Operand)
    requires st.Ok() && |t.stkOffset| == NUM_REGS
    ensures NewBB(st).0.Ok()
    ensures var st2 := MakeOverflowBB(t, NewBB(st).0);
      && st2.ovf.Some? && st2.Ok()
      && SplitOnTrap(t, st, obit) ==
           SetInsertPoint(Seal(AddIncoming(st2, st2.ovf.value, CreateArgs(t, st2.regs, STD_FUN)),
             CondBr(obit, st2.ovf.value, |st.blocks|)), Some(|st.blocks|))
  {}

  /** With a fresh block and the overflow block in place, nothing else has changed. */
  lemma BeforeSplit(c: Context, st: Builder, g: Ledger) returns (g': Ledger)
    requires Inv(c, st, g) && Open(st) && |g.av| == |st.blocks| && |c.target.stkOffset| == NUM_REGS
    ensures var ok := |st.blocks|; var s := Out(st.blocks, g.av, st.cur);
      var st2 := MakeOverflowBB(c.target, NewBB(st).0);
      && Inv(c, st2, g') && Open(st2) && st2.ovf.Some? && st2.ovf.value < |st2.blocks| && Landing(g', st2.ovf.value)
      && ok in g'.idle && ok !in g'.unlinked && ok < |g'.av| == |st2.blocks|
      && g'.av[ok] == s == Out(st2.blocks, g'.av, st2.cur)
      && st2.regs == st.regs && st2.vMap == st.vMap && Leaves(g, g'.(idle := g'.idle - {ok}), 0, 0)
  {
    var s := Out(st.blocks, g.av, st.cur);
    var ok := |st.blocks|;
    EmptyIsNew(st.next, s);
    var st1, g1 := Appended(st, EMPTY_BLOCK), g.(av := g.av + [s], idle := g.idle + {ok});
    hide GoodCode, Dsts, Certificate, UniqueNames, RegsOk, VarsOk, NewBlock, Out;
    AppendInv(c, st, g, EMPTY_BLOCK, s);
    NewIdle(c, st1, g.(av := g.av + [s]), ok);
    assert st1 == NewBB(st).0;
    g' := OverflowInv(c, st1, g1);
  }

  lemma EmptyIsNew(next: nat, s: set<nat>)
    ensures NewBlock(EMPTY_BLOCK, next, s) && NumNames(EMPTY_BLOCK) == 0
  {
    NoCode(s + PhiDsts([]));
  }

  lemma NewIdle(c: Context, st: Builder, g: Ledger, b: nat)
    requires Inv(c, st, g) && b < |st.blocks| && st.blocks[b] == EMPTY_BLOCK && b != st.cur
    requires (forall lab :: lab in c.arity ==> lab in st.frags && st.frags[lab] != b) && st.ovf != Some(b)
    ensures Inv(c, st, g.(idle := g.idle + {b}))
  {}

  lemma OverflowInv(c: Context, st: Builder, g: Ledger) returns (g': Ledger)
    requires Inv(c, st, g) && st.Ok() && |c.target.stkOffset| == NUM_REGS
    ensures var st' := MakeOverflowBB(c.target, st);
      && Inv(c, st', g') && Leaves(g, g', 0, 0) && g'.idle == g.idle && g'.unlinked == g.unlinked
      && Landing(g', st'.ovf.value)
      && (|g.av| == |st.blocks| && Out(st'.blocks, g'.av, st.cur) == Out(st.blocks, g.av, st.cur))
      && (forall b :: 0 <= b < |st.blocks| ==> st'.blocks[b] == st.blocks[b]) && |st.blocks| <= |st'.blocks|
      && st' == st.(blocks := st'.blocks, next := st'.next, ovf := st'.ovf)
  {
    g' := g;
    if st.ovf.None? {
      var blk := OverflowBlock(c.target, st.next);
      OverflowIsNew(c.target, st.next);
      g' := g.(av := g.av + [{}]);
      hide Certificate, UniqueNames, NewBlock, OverflowBlock, NumNames;
      AppendInv(c, st, g, blk, {});
      assert NumNames(blk) == |MachineRegs(c.target)| + 2;
    }
  }

  lemma OverflowIsNew(t: TargetInfo, next: nat)
    requires |t.stkOffset| == NUM_REGS
    ensures NewBlock(OverflowBlock(t, next), next, {}) && NumNames(OverflowBlock(t, next)) == |MachineRegs(t)| + 2
  {
    var blk := OverflowBlock(t, next);
    var n := |MachineRegs(t)|;
    var names := {} + PhiDsts(blk.phis);
    forall i | 0 <= i < n ensures blk.phis[i].dst in PhiDsts(blk.phis) && blk.phis[i].dst == next + i {}
    assert blk.body == [blk.body[0]] + [blk.body[1]];
    OneInstr(names, [], blk.body[0]);
    assert [] + [blk.body[0]] == [blk.body[0]];
    OneInstr(names, [blk.body[0]], blk.body[1]);
    forall i | 1 <= i < n + 1 ensures Defined(blk.body[1].args[i], names) {
      assert blk.body[1].args[i] == Id(blk.phis[i - 1].dst);
    }
  }

  lemma OneInstr(names: set<nat>, code: seq<Instr>, i: Instr)
    ensures Dsts(code + [i]) == Dsts(code) + {i.dst}
    ensures GoodCode(names, code + [i]) == (GoodCode(names, code) && AllDefined(i.args, names + Dsts(code)))
  {
    assert (code + [i])[..|code|] == code;
  }

  lemma FinishTrapInv(c: Context, st: Builder, obit: Operand, ok: nat, scope: set<LVar>, g: Ledger, s: set<nat>)
    requires Inv(c, st, g) && Open(st) && st.ovf.Some? && ok in g.idle && ok !in g.unlinked
    requires st.ovf.value < |st.blocks|
    requires ok < |g.av| && g.av[ok] == s == Out(st.blocks, g.av, st.cur) && Landing(g, st.ovf.value)
    requires Defined(obit, s) && RegsOk(c.target, st.regs, s) && VarsOk(st.vMap, scope, s)
    requires |c.target.stkOffset| == NUM_REGS
    ensures var st1 := AddIncoming(st, st.ovf.value, CreateArgs(c.target, st.regs, STD_FUN));
      var st2 := SetInsertPoint(Seal(st1, CondBr(obit, st.ovf.value, ok)), Some(ok));
      var g' := g.(idle := g.idle - {ok});
      Inv(c, st2, g') && Live(c, st2, g', scope)
  {
    var trap := st.ovf.value;
    var args := CreateArgs(c.target, st.regs, STD_FUN);
    CreateArgsDefined(c.target, st.regs, STD_FUN, s);
    hide GoodCode, Dsts, Certificate, UniqueNames, RegsOk, VarsOk, CreateArgs;
    var st1 := AddIncoming(st, trap, args);
    IncomingInv(c, st, g, trap, args);
    assert Succs(Some(CondBr(obit, trap, ok))) == [trap, ok];
    SealInv(c, st1, g, CondBr(obit, trap, ok));
    var st2 := Seal(st1, CondBr(obit, trap, ok));
    assert st2.(regs := st.regs) == st2;
    EnterInv(c, st2, g, st.regs, ok, scope);
  }

  // ----- switches and branches -----

  lemma {:induction false} SwitchInv(c: Context, st: Builder, s: Stm, scope: set<LVar>, lo: nat, g: Ledger)
    returns (g': Ledger)
    requires s.SWITCH? && Inv(c, st, g) && Live(c, st, g, scope) && st.Ok() && |c.target.stkOffset| == NUM_REGS
    requires Numbered(s, lo) && Owned(g, lo, NumArms(s)) && StmOk(c, s, scope, st.vMap)
    ensures Inv(c, GenStm(c.target, c.clusters, st, s), g') && Leaves(g, g', lo, NumArms(s))
    decreases s, 0
  {
    hide *;
    SwitchParts(c, st, s, scope, lo);
    var g1, names := SwitchHeadInv(c, st, s, scope, lo, g);
    g' := ArmsInv(c, SwitchHead(c.target, st, s), st.regs, s.arms, scope, lo, g1, names);
    LeavesTwice(g, g1, g', lo, NumArms(s));
  }

  lemma SwitchParts(c: Context, st: Builder, s: Stm, scope: set<LVar>, lo: nat)
    requires s.SWITCH? && Numbered(s, lo) && StmOk(c, s, scope, st.vMap) && st.Ok() && |c.target.stkOffset| == NUM_REGS
    ensures |st.regs| == NUM_REGS && NumberedArms(s.arms, lo) && NumArms(s) == NumArmsOf(s.arms)
    ensures ScopedExp(s.scrut, scope) && ArmsStmOk(c, s.arms, scope, st.vMap)
    ensures GenStm(c.target, c.clusters, st, s)
      == GenArms(c.target, c.clusters, SwitchHead(c.target, st, s), st.regs, s.arms)
  {
    hide SwitchHead;
  }

  lemma SwitchHeadInv(c: Context, st: Builder, s: Stm, scope: set<LVar>, lo: nat, g: Ledger)
    returns (g': Ledger, names: set<nat>)
    requires s.SWITCH? && Inv(c, st, g) && Live(c, st, g, scope) && st.Ok() && |c.target.stkOffset| == NUM_REGS
    requires NumberedArms(s.arms, lo) && Owned(g, lo, NumArmsOf(s.arms)) && ScopedExp(s.scrut, scope)
    ensures var st' := SwitchHead(c.target, st, s);
      && Inv(c, st', g') && st'.vMap == st.vMap && Leaves(g, g', lo, NumArmsOf(s.arms))
      && ArmsOk(s.arms, lo, g', names) && ArmEnv(c, st'.vMap, st.regs, scope, names)
  {
    var start, l := Starts(st.blocks, g.av, st.cur), st.OpenLine();
    LiveRegs(c, st, g, scope);
    AddsRefl(c.target, start, scope, l);
    assert Open(st);
    hide Inv, Live, LineOk, RegsOk, VarsOk, Adds, GenExp, SealSwitch, ArmEnv, ArmsOk, Avail;
    ExpAdds(c.target, start, scope, l, l, s.scrut);
    var (l1, v) := GenExp(c.target, l, s.scrut);
    EmitAdds(c.target, start, scope, l, l1, Trunc32, [v]);
    var (l2, v32) := Emit(l1, Trunc32, [v]);
    PutInv(c, st, g, scope, l2);
    names := Avail(start, l2);
    var st1 := st.Put(l2);
    assert Open(st1);
    g' := SealSwitchInv(c, st1, v32, s.arms, lo, g);
    ArmEnvAt(c, st1, g, scope);
  }

  lemma ArmEnvAt(c: Context, st: Builder, g: Ledger, scope: set<LVar>)
    requires Live(c, st, g, scope)
    ensures ArmEnv(c, st.vMap, st.regs, scope, Out(st.blocks, g.av, st.cur))
  {}

  lemma SealSwitchInv(c: Context, st: Builder, v: Operand, arms: seq<Arm>, lo: nat, g: Ledger) returns (g': Ledger)
    requires Inv(c, st, g) && Open(st) && |g.av| == |st.blocks| && Defined(v, Out(st.blocks, g.av, st.cur))
    requires NumberedArms(arms, lo) && Owned(g, lo, NumArmsOf(arms))
    ensures Inv(c, SealSwitch(st, v, arms), g') && Leaves(g, g', lo, NumArmsOf(arms))
    ensures SealSwitch(st, v, arms).vMap == st.vMap
    ensures ArmsOk(arms, lo, g', Out(st.blocks, g.av, st.cur))
  {
    var blk := EMPTY_BLOCK.(term := Some(Unreachable));
    NoCode({} + PhiDsts([]));
    hide GoodCode, Dsts, Certificate, UniqueNames, NumArmsOf, NumberedArms, ArmsOk, Inv, Out;
    AppendInv(c, st, g, blk, {});
    UnlinkedInside(c, st, g);
    g' := SealSwitchTo(c, Appended(st, blk), v, arms, lo, g.(av := g.av + [{}]), |st.blocks|);
  }

  lemma UnlinkedInside(c: Context, st: Builder, g: Ledger)
    requires Inv(c, st, g)
    ensures |st.blocks| !in g.unlinked
  {}

  lemma SealSwitchTo(c: Context, st: Builder, v: Operand, arms: seq<Arm>, lo: nat, g: Ledger, dflt: nat)
    returns (g': Ledger)
    requires Inv(c, st, g) && Open(st) && |g.av| == |st.blocks| && Defined(v, Out(st.blocks, g.av, st.cur))
    requires NumberedArms(arms, lo) && Owned(g, lo, NumArmsOf(arms))
    requires dflt < |g.av| && dflt !in g.unlinked && g.av[dflt] == {}
    ensures Inv(c, Seal(st, Switch(v, dflt, ArmBBs(arms))), g') && Leaves(g, g', lo, NumArmsOf(arms))
    ensures ArmsOk(arms, lo, g', Out(st.blocks, g.av, st.cur))
  {
    var s := Out(st.blocks, g.av, st.cur);
    assert forall b :: b in g.idle ==> b < |g.av|;
    hide GoodCode, Dsts, Inv, Out, NumArmsOf, NumberedArms, ArmsOk;
    MarkArms(arms, lo, g, s);
    MarkInv(c, st, g, ArmStarts(arms), s);
    g' := Mark(g, ArmStarts(arms), s);
    SwitchTargets(arms, lo, g, s, v, dflt);
    SealInv(c, st, g', Switch(v, dflt, ArmBBs(arms)));
  }

  lemma SwitchTargets(arms: seq<Arm>, lo: nat, g: Ledger, s: set<nat>, v: Operand, dflt: nat)
    requires forall b :: b in ArmStarts(arms) ==> b < |g.av|
    requires dflt < |g.av| && dflt !in g.unlinked && g.av[dflt] == {}
    ensures var g' := Mark(g, ArmStarts(arms), s);
      forall d :: d in Succs(Some(Switch(v, dflt, ArmBBs(arms)))) ==> d < |g.av| && d !in g'.unlinked && g'.av[d] <= s
  {
    var g' := Mark(g, ArmStarts(arms), s);
    forall d | d in Succs(Some(Switch(v, dflt, ArmBBs(arms))))
      ensures d < |g.av| && d !in g'.unlinked && g'.av[d] <= s
    {
      if d != dflt {
        var i :| 0 <= i < |arms| && ArmBBs(arms)[i] == d;
        ArmStartsHas(arms, i);
      }
    }
  }

  lemma {:induction false} BranchInv(c: Context, st: Builder, s: Stm, scope: set<LVar>, lo: nat, g: Ledger)
    returns (g': Ledger)
    requires s.BRANCH? && Inv(c, st, g) && Live(c, st, g, scope) && st.Ok() && |c.target.stkOffset| == NUM_REGS
    requires Numbered(s, lo) && Owned(g, lo, NumArms(s)) && StmOk(c, s, scope, st.vMap)
    ensures Inv(c, GenStm(c.target, c.clusters, st, s), g') && Leaves(g, g', lo, NumArms(s))
    decreases s, 1
  {
    hide Inv, Live, Numbered, NumArms, StmOk, BranchHead, GenStm, ArmOk, ArmEnv, Binders, Owned, Leaves;
    var st1 := BranchHead(c.target, st, s);
    BranchStmParts(c, s, scope, st.vMap, lo);
    var g1, names := BranchHeadInv(c, st, s, scope, lo, g);
    GenStmBranch(c.target, c.clusters, st, s);
    assert st1.(regs := st1.regs) == st1;
    g' := TwoArmsInv(c, st1, s, s.onTrue, s.onFalse, scope, lo, g1, names);
    LeavesTwice(g, g1, g', lo, NumArms(s));
  }

  lemma LeavesTwice(g: Ledger, g1: Ledger, g2: Ledger, lo: nat, n: nat)
    requires Leaves(g, g1, lo, n) && Leaves(g1, g2, lo, n)
    ensures Leaves(g, g2, lo, n)
  {}

  lemma {:induction false} TwoArmsInv(c: Context, st: Builder, stm: Stm, a: Arm, b: Arm, scope: set<LVar>, lo: nat,
                                      g: Ledger, s: set<nat>) returns (g': Ledger)
    requires stm.BRANCH? && a == stm.onTrue && b == stm.onFalse && Inv(c, st, g) && st.Ok()
    requires |c.target.stkOffset| == NUM_REGS
    requires ArmOk(a, lo, g, s) && ArmOk(b, lo + NumArms(a.body) + 1, g, s) && ArmEnv(c, st.vMap, st.regs, scope, s)
    requires StmOk(c, a.body, scope, st.vMap) && StmOk(c, b.body, scope, st.vMap) && Binders(a.body) !! Binders(b.body)
    ensures var st1 := GenStm(c.target, c.clusters, SetInsertPoint(st, a.bb), a.body);
      Inv(c, GenStm(c.target, c.clusters, SetInsertPoint(st1.(regs := st.regs), b.bb), b.body), g')
    ensures Leaves(g, g', lo, (NumArms(a.body) + 1) + (NumArms(b.body) + 1))
    decreases stm, 0
  {
    hide Inv, NumArms, StmOk, GenStm, ArmOk, ArmEnv, Binders, Leaves;
    var n, k := NumArms(a.body) + 1, NumArms(b.body) + 1;
    assert st.(regs := st.regs) == st;
    var g1 := ArmInv(c, st, st.regs, a, scope, lo, g, s);
    var st1 := GenStm(c.target, c.clusters, SetInsertPoint(st, a.bb), a.body);
    NextArm(c, st, a, b, scope, lo, g, g1, s);
    g' := ArmInv(c, st1, st.regs, b, scope, lo + n, g1, s);
    LeavesTrans(g, g1, g', lo, n, k);
  }

  lemma BranchStmParts(c: Context, s: Stm, scope: set<LVar>, vMap: map<LVar, Operand>, lo: nat)
    requires s.BRANCH? && StmOk(c, s, scope, vMap) && Numbered(s, lo)
    ensures var a, b := s.onTrue, s.onFalse;
      && StmOk(c, a.body, scope, vMap) && StmOk(c, b.body, scope, vMap) && Binders(a.body) !! Binders(b.body)
      && a < s && b < s && NumArms(s) == (NumArms(a.body) + 1) + (NumArms(b.body) + 1) && ScopedExps(s.args, scope)
      && a.bb == Some(lo) && b.bb == Some(lo + NumArms(a.body) + 1)
      && Numbered(a.body, lo + 1) && Numbered(b.body, lo + NumArms(a.body) + 2)
  {}

  lemma NextArm(c: Context, st: Builder, a: Arm, b: Arm, scope: set<LVar>, lo: nat, g: Ledger, g1: Ledger, s: set<nat>)
    requires st.Ok() && |c.target.stkOffset| == NUM_REGS
    requires ArmOk(b, lo + NumArms(a.body) + 1, g, s) && ArmEnv(c, st.vMap, st.regs, scope, s)
    requires StmOk(c, b.body, scope, st.vMap)
    requires Binders(a.body) !! Binders(b.body) && Leaves(g, g1, lo, NumArms(a.body) + 1)
    ensures var st1 := GenStm(c.target, c.clusters, SetInsertPoint(st, a.bb), a.body);
      ArmOk(b, lo + NumArms(a.body) + 1, g1, s) && ArmEnv(c, st1.vMap, st.regs, scope, s)
        && StmOk(c, b.body, scope, st1.vMap)
  {
    hide GenStm, NumArms, Numbered, Binders, UniqueBinders, Scoped, RegsOk;
    GenStmVars(c.target, c.clusters, SetInsertPoint(st, a.bb), a.body);
  }

  lemma BranchHeadInv(c: Context, st: Builder, s: Stm, scope: set<LVar>, lo: nat, g: Ledger)
    returns (g': Ledger, names: set<nat>)
    requires s.BRANCH? && Inv(c, st, g) && Live(c, st, g, scope) && st.Ok() && |c.target.stkOffset| == NUM_REGS
    requires Numbered(s, lo) && Owned(g, lo, NumArms(s)) && ScopedExps(s.args, scope)
    ensures var st' := BranchHead(c.target, st, s);
      && Inv(c, st', g') && st'.vMap == st.vMap && Leaves(g, g', lo, NumArms(s))
      && ArmEnv(c, st'.vMap, st'.regs, scope, names)
      && ArmOk(s.onTrue, lo, g', names) && ArmOk(s.onFalse, lo + NumArms(s.onTrue.body) + 1, g', names)
  {
    var start, l := Starts(st.blocks, g.av, st.cur), st.OpenLine();
    LiveRegs(c, st, g, scope);
    AddsRefl(c.target, start, scope, l);
    assert Open(st);
    hide Inv, Live, LineOk, RegsOk, VarsOk, Adds, GenExps, GenTest, ArmEnv, ArmOk, Numbered, NumArms;
    ExpsAdds(c.target, start, scope, l, l, s.args);
    var (l1, os) := GenExps(c.target, l, s.args);
    TestAdds(c.target, start, scope, l, l1, s.test, os);
    var (l2, o) := GenTest(c.target, l1, s.test, os);
    TestKeeps(c.target, l1, s.test, os);
    PutInv(c, st, g, scope, l2);
    names := Avail(start, l2);
    var st1 := st.Put(l2);
    assert Open(st1);
    g' := SealBranchInv(c, st1, o, s, lo, g);
    ArmEnvAt(c, st1, g, scope);
  }

  lemma TestKeeps(t: TargetInfo, l: Line, op: BranchOp, os: seq<Operand>)
    requires |l.regs| == NUM_REGS && |t.stkOffset| == NUM_REGS
    ensures GenTest(t, l, op, os).0.vMap == l.vMap
  {}

  lemma SealBranchInv(c: Context, st: Builder, o: Operand, s: Stm, lo: nat, g: Ledger) returns (g': Ledger)
    requires s.BRANCH? && Inv(c, st, g) && Open(st) && |g.av| == |st.blocks| && Defined(o, Out(st.blocks, g.av, st.cur))
    requires Numbered(s, lo) && Owned(g, lo, NumArms(s))
    ensures var st' := Seal(st, CondBr(o, ArmBB(s.onTrue), ArmBB(s.onFalse)));
      var names := Out(st.blocks, g.av, st.cur);
      && Inv(c, st', g') && Leaves(g, g', lo, NumArms(s))
      && ArmOk(s.onTrue, lo, g', names) && ArmOk(s.onFalse, lo + NumArms(s.onTrue.body) + 1, g', names)
  {
    var a, b := ArmBB(s.onTrue), ArmBB(s.onFalse);
    var names := Out(st.blocks, g.av, st.cur);
    InvSized(c, st, g);
    hide *;
    BranchRanges(s, lo);
    MarkBranch(g, s, lo, names);
    MarkInv(c, st, g, {a, b}, names);
    g' := Mark(g, {a, b}, names);
    BranchTargets(o, a, b);
    SealInv(c, st, g', CondBr(o, a, b));
  }

  lemma InvSized(c: Context, st: Builder, g: Ledger)
    requires Inv(c, st, g)
    ensures st.Ok() && |g.av| == |st.blocks| && forall b :: b in g.idle ==> b < |g.av|
  {}

  lemma BranchTargets(o: Operand, a: nat, b: nat)
    ensures Succs(Some(CondBr(o, a, b))) == [a, b]
    ensures forall names :: Defined(o, names) ==> TermOk(Some(CondBr(o, a, b)), names)
  {}

  lemma MarkBranch(g: Ledger, s: Stm, lo: nat, names: set<nat>)
    requires s.BRANCH? && Numbered(s, lo) && Owned(g, lo, NumArms(s)) && forall b :: b in g.idle ==> b < |g.av|
    ensures var a, b := ArmBB(s.onTrue), ArmBB(s.onFalse); var g' := Mark(g, {a, b}, names);
      && {a, b} <= g.idle && {a, b} <= g.unlinked && |g'.av| == |g.av| && a < |g.av| && b < |g.av|
      && g'.av[a] == names == g'.av[b] && a !in g'.unlinked && b !in g'.unlinked
      && Leaves(g, g', lo, NumArms(s)) && ArmOk(s.onTrue, lo, g', names)
      && ArmOk(s.onFalse, lo + NumArms(s.onTrue.body) + 1, g', names)
  {
    BranchRanges(s, lo);
    hide Numbered, NumArms;
    assert lo in g.idle && lo + NumArms(s.onTrue.body) + 1 in g.idle;
  }

  lemma BranchRanges(s: Stm, lo: nat)
    requires s.BRANCH? && Numbered(s, lo)
    ensures var n, k := NumArms(s.onTrue.body), NumArms(s.onFalse.body);
      && s.onTrue.bb == Some(lo) && s.onFalse.bb == Some(lo + n + 1) && NumArms(s) == n + k + 2
      && Numbered(s.onTrue.body, lo + 1) && Numbered(s.onFalse.body, lo + n + 2)
  {}
}
