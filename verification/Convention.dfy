/** The "jump with arguments" convention: whichever registers live in stack slots, every place that builds or
    takes apart an argument list means the same thing by the same position, so clusters can call each other. */
module Convention {
  import opened Common
  import opened CMRegisters
  import opened TargetIR
  import opened CFG
  import opened CodeBuilder
  import opened StraightLine
  import opened Control
  import opened Correctness
  import opened Creation
  import opened Phis
  import opened ClusterCorrectness
  import opened WholeRuns

  /** What a position of an argument list stands for. */
  datatype Slot = Reg(r: RegId) | Unused | User(i: nat)

  function SlotAt(t: TargetInfo, kind: FragKind, k: nat): Slot
    requires |t.stkOffset| == NUM_REGS
  {
    var hw := MachineRegs(t);
    if k < |hw| then Reg(hw[k]) else if k < |hw| + NumUnused(kind) then Unused else User(k - |hw| - NumUnused(kind))
  }

  /** Every machine register has exactly one position, every stack register none. */
  lemma RegPositions(t: TargetInfo, kind: FragKind, r: RegId, k: nat)
    requires |t.stkOffset| == NUM_REGS
    ensures SlotAt(t, kind, k) == Reg(r) <==> t.IsMachineReg(r) && k == MachineIx(t, r)
  {
    if t.IsMachineReg(r) { MachineIxIndexesTable(t, r); }
    if k < |MachineRegs(t)| { TableIsSound(t, NUM_REGS, k); }
  }

  /** Building an argument list. */
  lemma ArgsFollow(t: TargetInfo, regs: seq<Option<Operand>>, kind: FragKind, os: seq<Operand>, k: nat)
    requires |regs| == NUM_REGS && |t.stkOffset| == NUM_REGS && k < |CreateArgs(t, regs, kind) + os|
    ensures var o := (CreateArgs(t, regs, kind) + os)[k];
      match SlotAt(t, kind, k)
      case Reg(r) => t.IsMachineReg(r) && o == RegOperand(regs[r])
      case Unused => o == Undef
      case User(i) => i < |os| && o == os[i]
  {
    if k < |MachineRegs(t)| { TableIsSound(t, NUM_REGS, k); }
  }

  /** Entering a function: registers and parameters come from the positions that stand for them. */
  lemma EntryFollows(t: TargetInfo, before: seq<Option<Operand>>, f: Frag, k: nat)
    requires |before| == NUM_REGS && |t.stkOffset| == NUM_REGS && k < |MachineRegs(t)| + NumUnused(f.kind) + |f.params|
    ensures match SlotAt(t, f.kind, k)
      case Reg(r) => StdEntryRegs(t, before, NUM_REGS)[r] == Some(Arg(k))
      case Unused => true
      case User(i) => i < |f.params| && EntryParams(t, f)[i] == Arg(k)
    ensures forall r: RegId :: t.IsMachineReg(r) <==> StdEntryRegs(t, before, NUM_REGS)[r].Some?
  {
    StdEntryRegsAre(t, before, NUM_REGS);
    if k < |MachineRegs(t)| { TableIsSound(t, NUM_REGS, k); }
  }

  /** Entering an internal fragment: the same, from its phis. */
  lemma FragEntryFollows(t: TargetInfo, before: seq<Option<Operand>>, phis: seq<Phi>, n: nat, k: nat)
    requires |before| == NUM_REGS && |t.stkOffset| == NUM_REGS && |phis| == |MachineRegs(t)| + n && k < |phis|
    ensures match SlotAt(t, INTERNAL, k)
      case Reg(r) => FragEntryRegs(t, before, phis, |MachineRegs(t)|)[r] == Some(Id(phis[k].dst))
      case Unused => false
      case User(i) => i < n && PhiParams(t, phis, n)[i] == Id(phis[k].dst)
  {
    FragEntryRegsAre(t, before, phis, |MachineRegs(t)|);
    if k < |MachineRegs(t)| {
      TableIsSound(t, NUM_REGS, k);
      MachineIxIndexesTable(t, MachineRegs(t)[k]);
    }
  }

  /** The structure a collection returns: position k holds the register of that position, then the roots. */
  lemma CollectionFollows(t: TargetInfo, regs: seq<Word>, roots: seq<Word>, k: nat)
    requires |t.stkOffset| == NUM_REGS && |regs| == NUM_REGS && k < |MachineRegs(t)| + |roots|
    ensures match SlotAt(t, STD_FUN, k)
      case Reg(r) => MachineIx(t, r) == k && (MachineWords(t, regs) + roots)[k] == regs[r]
      case Unused => false
      case User(i) => i < |roots| && (MachineWords(t, regs) + roots)[k] == roots[i]
  {
    if k < |MachineRegs(t)| { TableIsSound(t, NUM_REGS, k); }
  }

  /** A trap: the block it leaves, and the registers there. */
  datatype Trap = Trap(pred: nat, regs: seq<Option<Operand>>)

  predicate ValidTraps(traps: seq<Trap>) { forall j :: 0 <= j < |traps| ==> |traps[j].regs| == NUM_REGS }

  /** The overflow block after a sequence of traps that share it. */
  function Trapped(t: TargetInfo, next: nat, traps: seq<Trap>): Block
    requires |t.stkOffset| == NUM_REGS && ValidTraps(traps)
  {
    if traps == [] then OverflowBlock(t, next)
    else
      var blk, last := Trapped(t, next, traps[..|traps| - 1]), traps[|traps| - 1];
      blk.(phis := AddToPhis(blk.phis, last.pred, CreateArgs(t, last.regs, STD_FUN)))
  }

  /** One more trap: every phi of any overflow block is given the register of its position, and is passed on there. */
  lemma TrapAdds(t: TargetInfo, blk: Block, next: nat, trap: Trap, k: nat)
    requires |t.stkOffset| == NUM_REGS && |trap.regs| == NUM_REGS && k < |MachineRegs(t)|
    requires OverflowBlockFrom(t, next, blk)
    ensures var phis := AddToPhis(blk.phis, trap.pred, CreateArgs(t, trap.regs, STD_FUN));
      && OverflowBlockFrom(t, next, blk.(phis := phis)) && k < |phis| && k + 1 < |blk.body[1].args|
      && match SlotAt(t, STD_FUN, k)
         case Reg(r) =>
           && phis[k].incoming == blk.phis[k].incoming + [(trap.pred, RegOperand(trap.regs[r]))]
           && blk.body[1].args[k + 1] == Id(phis[k].dst)
         case _ => false
  {
    ArgsFollow(t, trap.regs, STD_FUN, [], k);
    assert CreateArgs(t, trap.regs, STD_FUN) + [] == CreateArgs(t, trap.regs, STD_FUN);
  }

  /** However many traps share the overflow block, its phi at position k is given, from each of them, the register
      of that position there, and is passed on at that position. */
  lemma {:induction false} OverflowFollows(t: TargetInfo, next: nat, traps: seq<Trap>, k: nat)
    requires |t.stkOffset| == NUM_REGS && ValidTraps(traps) && k < |MachineRegs(t)|
    ensures var blk := Trapped(t, next, traps);
      && OverflowBlockFrom(t, next, blk) && k < |blk.phis| && k + 1 < |blk.body[1].args|
      && |blk.phis[k].incoming| == |traps| && blk.body[1].args[k + 1] == Id(blk.phis[k].dst)
      && match SlotAt(t, STD_FUN, k)
         case Reg(r) =>
           forall j :: 0 <= j < |traps| ==> blk.phis[k].incoming[j] == (traps[j].pred, RegOperand(traps[j].regs[r]))
         case _ => false
  {
    if traps != [] {
      var front := traps[..|traps| - 1];
      OverflowFollows(t, next, front, k);
      TrapAdds(t, Trapped(t, next, front), next, traps[|traps| - 1], k);
    }
  }

  // ----- how many positions are left unused -----

  /** The block of st ends in the tail call of fn: the callee, the machine registers, n undefined values, and the
      arguments, each at its place. */
  ghost predicate Passes(t: TargetInfo, st: Builder, fn: Exp, args: seq<Exp>, n: nat, st': Builder)
    requires st.Ok() && |t.stkOffset| == NUM_REGS
  {
    var (l, f) := GenExp(t, st.OpenLine(), fn);
    var os := GenExps(t, l, args).1;
    var hw := |MachineRegs(t)|;
    && st.cur < |st'.blocks| && st'.blocks[st.cur].term == Some(RetVoid) && st'.blocks[st.cur].body != []
    && var body := st'.blocks[st.cur].body;
    var call := body[|body| - 1];
    call.op == TailCall && LaidOut(t, st.regs, call.args, f, n, os)
  }

  ghost predicate LaidOut(t: TargetInfo, regs: seq<Option<Operand>>, all: seq<Operand>, f: Operand, n: nat,
                          os: seq<Operand>)
    requires |regs| == NUM_REGS && |t.stkOffset| == NUM_REGS
  {
    var hw := |MachineRegs(t)|;
    && |all| == 1 + hw + n + |os| && all[0] == f
    && (forall j :: 1 <= j < 1 + hw ==> all[j] == RegOperand(regs[MachineRegs(t)[j - 1]]))
    && (forall j :: 1 + hw <= j < 1 + hw + n ==> all[j] == Undef)
    && forall j :: 1 + hw + n <= j < |all| ==> all[j] == os[j - (1 + hw + n)]
  }

  lemma ArgsLaidOut(t: TargetInfo, regs: seq<Option<Operand>>, kind: FragKind, f: Operand, os: seq<Operand>)
    requires |regs| == NUM_REGS && |t.stkOffset| == NUM_REGS
    ensures LaidOut(t, regs, [f] + CreateArgs(t, regs, kind) + os, f, if kind == STD_CONT then 2 else 0, os)
  {
    hide MachineRegs;
    var cs := CreateArgs(t, regs, kind);
    var all := [f] + cs + os;
    assert forall j :: 1 <= j < 1 + |cs| ==> all[j] == cs[j - 1];
  }

  /** A call through GenCall. */
  lemma CallPasses(t: TargetInfo, st: Builder, fn: Exp, kind: FragKind, args: seq<Exp>)
    requires st.Ok() && |t.stkOffset| == NUM_REGS
    ensures var st' := Seal(st.Put(GenCall(t, st.OpenLine(), fn, kind, args)), RetVoid);
      Passes(t, st, fn, args, if kind == STD_CONT then 2 else 0, st')
  {
    var l := st.OpenLine();
    var (l1, f) := GenExp(t, l, fn);
    var (l2, os) := GenExps(t, l1, args);
    hide GenExp, GenExps, CreateArgs, LaidOut;
    assert l1.regs == st.regs;
    ArgsLaidOut(t, l1.regs, kind, f, os);
  }

  /** A THROW leaves exactly two positions unused. */
  lemma ThrowPasses(t: TargetInfo, clusters: map<LVar, FragKind>, st: Builder, s: Stm)
    requires s.THROW? && st.Ok() && |t.stkOffset| == NUM_REGS
    ensures Passes(t, st, s.fn, s.args, 2, GenStm(t, clusters, st, s))
  {
    CallPasses(t, st, s.fn, STD_CONT, s.args);
    hide Passes;
  }

  /** An APPLY through anything but a label leaves none; one of a label leaves two exactly if the entry of the
      label's cluster is a continuation. */
  lemma ApplyPasses(t: TargetInfo, clusters: map<LVar, FragKind>, st: Builder, s: Stm)
    requires s.APPLY? && st.Ok() && |t.stkOffset| == NUM_REGS
    ensures !s.fn.LABEL? ==> Passes(t, st, s.fn, s.args, 0, GenStm(t, clusters, st, s))
    ensures s.fn.LABEL? && s.fn.lab in clusters ==>
      Passes(t, st, s.fn, s.args, if clusters[s.fn.lab] == STD_CONT then 2 else 0, GenStm(t, clusters, st, s))
  {
    CallPasses(t, st, s.fn, CalleeKind(clusters, s.fn), s.args);
    hide Passes;
  }

  /** The entry of a continuation finds its parameters after two unused arguments, every other entry right after
      the machine registers. */
  lemma EntryBinds(t: TargetInfo, st: Builder, f: Frag, i: nat)
    requires st.Ok() && |t.stkOffset| == NUM_REGS && i < |f.params| && NoDup(f.params)
    ensures var st' := SetupFrag(t, st, f, true); var hw := |MachineRegs(t)|;
      f.params[i] in st'.vMap && st'.vMap[f.params[i]] == Arg(if f.kind == STD_CONT then hw + 2 + i else hw + i)
  {
    var os := EntryParams(t, f);
    BindParamsBinds(f.params, os, |f.params|);
    var x := f.params[i];
    assert SetupFrag(t, st, f, true).vMap == BindParams(f.params, os, |f.params|);
    var hw, n := |MachineRegs(t)|, if f.kind == STD_CONT then 2 else 0;
    assert NumUnused(f.kind) == n;
    assert os[i] == Arg(hw + n + i);
    hide *;
    assert f.params[i] in BindParams(f.params, os, |f.params|);
  }

  /** What a call passes at run time, place by place. */
  lemma WordsPassed(t: TargetInfo, kind: FragKind, args: seq<Word>, regs: seq<Word>)
    requires |regs| == NUM_REGS && |t.stkOffset| == NUM_REGS
    ensures var hw := |MachineRegs(t)|; var n := if kind == STD_CONT then 2 else 0;
      var vals := ConventionArgs(t, kind, args, regs);
      && |vals| == hw + n + |args|
      && (forall j :: 0 <= j < hw ==> vals[j] == W(regs[MachineRegs(t)[j]]))
      && (forall j :: hw <= j < hw + n ==> vals[j] == Undefined)
      && forall j :: hw + n <= j < |vals| ==> vals[j] == W(args[j - (hw + n)])
  {
    hide MachineRegs;
  }

  // ----- calls between clusters -----

  /** A caller's argument list is what the callee's entry expects. */
  lemma CallerMeetsCallee(m: Machine, kind: FragKind, args: seq<Word>, regs: seq<Word>)
    requires |m.target.stkOffset| == NUM_REGS && |regs| == NUM_REGS
    requires m.fargs == ConventionArgs(m.target, kind, args, regs)
    ensures CalledWith(m, kind, args, regs)
  {
    var t, hw, u := m.target, |MachineRegs(m.target)|, NumUnused(kind);
    forall k | 0 <= k < hw ensures m.fargs[k] == W(MachineWords(t, regs)[k]) {
      assert Vals(MachineWords(t, regs))[k] == W(MachineWords(t, regs)[k]);
    }
    forall i | 0 <= i < |args| ensures m.fargs[hw + u + i] == W(args[i]) {
      assert Vals(args)[i] == W(args[i]);
    }
  }

  lemma SameLayout(m: Machine, kind: FragKind, kind': FragKind, args: seq<Word>, regs: seq<Word>)
    requires |regs| == NUM_REGS && CalledWith(m, kind, args, regs) && NumUnused(kind) == NumUnused(kind')
    ensures CalledWith(m, kind', args, regs)
  {}

  /** A place in the run of a program: the entry of a cluster, with arguments, registers and heap. */
  datatype Point = Point(lab: LVar, args: seq<Word>, regs: seq<Word>, mem: Mem)

  /** The clusters of a program by label, and what each may assume about the others. */
  datatype Program = Program(sem: Semantics, clusters: map<LVar, (Context, Cluster)>)
  {
    ghost predicate Valid() {
      && ValidTarget(sem.target) && ValidPrims(sem.prims)
      && (forall lab :: lab in clusters ==> WellScoped(clusters[lab].0, clusters[lab].1))
      && (forall lab :: lab in clusters ==>
        clusters[lab].0.target == sem.target && clusters[lab].0.clusters == sem.clusters)
    }

    /** The machine that runs a cluster's function on actual arguments. */
    function MachineFor(lab: LVar, fargs: seq<Val>): Machine
      requires lab in clusters && |sem.target.stkOffset| == NUM_REGS && |clusters[lab].1.frags| > 0
    {
      Machine(sem.prims, sem.target, GenCluster(sem.target, sem.clusters, clusters[lab].1).blocks, fargs)
    }

    ghost predicate Enterable(p: Point) {
      p.lab in clusters && |clusters[p.lab].1.frags| > 0 && |p.args| == |clusters[p.lab].1.frags[0].params|
        && |p.regs| == NUM_REGS
    }

    /** What the source does from its entry at p, after n jumps. */
    function OutcomeAfter(p: Point, n: nat): Outcome
      requires Enterable(p)
    {
      sem.RunCluster(clusters[p.lab].1, sem.Enter(clusters[p.lab].1.frags[0], p.args, p.regs, p.mem), n)
    }

    /** The source calls the cluster entered at q as a cluster whose arguments are laid out in the same way: a known
        function may be called through a variable as any function. */
    ghost predicate CallsAfter(p: Point, q: Point, n: nat) {
      && Enterable(p) && Enterable(q)
      && var o := OutcomeAfter(p, n);
      && o.Call? && NumUnused(o.kind) == NumUnused(clusters[q.lab].1.frags[0].kind)
      && o == Call(sem.prims.address(q.lab), o.kind, q.args, q.regs, q.mem)
    }

    /** Every cluster is known to the others by the kind of its entry. */
    ghost predicate KindsKnown() {
      forall lab :: lab in clusters ==>
        |clusters[lab].1.frags| > 0 && lab in sem.clusters && sem.clusters[lab] == clusters[lab].1.frags[0].kind
    }

    /** A call of a cluster by its label has the layout that the cluster's entry takes apart. */
    lemma LabelPasses(st: Builder, s: Stm)
      requires Valid() && KindsKnown() && s.APPLY? && s.fn.LABEL? && s.fn.lab in clusters && st.Ok()
      ensures |sem.target.stkOffset| == NUM_REGS
      ensures var kind := clusters[s.fn.lab].1.frags[0].kind;
        Passes(sem.target, st, s.fn, s.args, if kind == STD_CONT then 2 else 0,
               GenStm(sem.target, sem.clusters, st, s))
    {
      hide WellScoped, Passes;
      ApplyPasses(sem.target, sem.clusters, st, s);
    }

    /** A target state at the entry of the function for p. */
    ghost predicate EnteredAt(p: Point, m: Machine, ts: TState) {
      Valid() && Enterable(p) && m == MachineFor(p.lab, m.fargs)
        && Called(clusters[p.lab].1, m, p.args, p.regs, p.mem, ts)
    }

    /** The function for p leaves as the source does, with the frame in order. */
    lemma LeavesLike(p: Point, q: Point, n: nat, m: Machine, ts: TState) returns (frame: Frame)
      requires EnteredAt(p, m, ts) && CallsAfter(p, q, n) && |sem.target.stkOffset| == NUM_REGS
      ensures m.target == sem.target && m.prims == sem.prims && SlotsHold(m, q.regs, frame) && RuntimeIn(m, frame)
      ensures var vals := ConventionArgs(m.target, OutcomeAfter(p, n).kind, q.args, q.regs);
        exists k: nat :: m.Steps(k, ts) == Exited(TailCalled(W(sem.prims.address(q.lab)), vals, q.mem, frame))
    {
      CompiledFor(p, m, ts);
      CallParts(p, q, n);
      var c, cl := clusters[p.lab].0, clusters[p.lab].1;
      hide EnteredAt, Valid, WellScoped, Called, Compiled, GenCluster, CalledWith, RuntimeIn;
      var r := ClusterSim(sem, c, cl, m, p.args, p.regs, p.mem, ts, n);
      var k: nat :| k >= n + 1 && m.Steps(k, ts) == r;
      frame := r.exit.frame;
      assert m.Steps(k, ts) == Exited(r.exit);
    }

    /** Where the target goes when the source calls another cluster: into that cluster's function, with the
        arguments it has passed and nothing else carried over but the heap and the frame. */
    lemma CallEnters(p: Point, q: Point, n: nat, m: Machine, ts: TState) returns (m': Machine, ts': TState)
      requires EnteredAt(p, m, ts) && CallsAfter(p, q, n)
      ensures LeavesFor(q, m, ts, m', ts') && EnteredAt(q, m', ts') && ts' == TState(0, 0, map[], q.mem, ts'.frame)
    {
      CallParts(p, q, n);
      hide EnteredAt, CallsAfter, WellScoped, GenCluster, CalledWith, RuntimeIn, SlotsHold, ConventionArgs;
      var kind := OutcomeAfter(p, n).kind;
      var frame := LeavesLike(p, q, n, m, ts);
      m' := MachineFor(q.lab, ConventionArgs(m.target, kind, q.args, q.regs));
      ts' := TState(0, 0, map[], q.mem, frame);
      CallerMeetsCallee(m', kind, q.args, q.regs);
      SameLayout(m', kind, clusters[q.lab].1.frags[0].kind, q.args, q.regs);
      ValidEntered(p, m, ts);
      Enters(q, m, m', ts');
    }

    lemma CompiledFor(p: Point, m: Machine, ts: TState)
      requires EnteredAt(p, m, ts)
      ensures var (c, cl) := clusters[p.lab];
        Compiled(sem, c, cl, m) && Called(cl, m, p.args, p.regs, p.mem, ts) && m.target == sem.target
          && m.prims == sem.prims
    {
      hide WellScoped, Called;
    }

    lemma CallParts(p: Point, q: Point, n: nat)
      requires CallsAfter(p, q, n)
      ensures Enterable(p) && Enterable(q) && OutcomeAfter(p, n).Call?
      ensures NumUnused(OutcomeAfter(p, n).kind) == NumUnused(clusters[q.lab].1.frags[0].kind)
    {
      hide OutcomeAfter;
    }

    lemma ValidEntered(p: Point, m: Machine, ts: TState)
      requires EnteredAt(p, m, ts)
      ensures Valid() && |sem.target.stkOffset| == NUM_REGS
    {}

    lemma Enters(q: Point, m: Machine, m': Machine, ts': TState)
      requires Valid() && Enterable(q) && m' == MachineFor(q.lab, m'.fargs) && m.target == sem.target
      requires m.prims == sem.prims
      requires CalledWith(m', clusters[q.lab].1.frags[0].kind, q.args, q.regs)
      requires SlotsHold(m, q.regs, ts'.frame) && RuntimeIn(m, ts'.frame)
      requires ts' == TState(0, 0, map[], q.mem, ts'.frame)
      ensures EnteredAt(q, m', ts')
    {}

    ghost predicate Calls(p: Point, q: Point) { exists n: nat :: CallsAfter(p, q, n) }

    /** A run of the source from cluster to cluster. */
    ghost predicate Trace(ps: seq<Point>) {
      ps != [] && (|ps| > 1 ==> Trace(ps[..|ps| - 1]) && Calls(ps[|ps| - 2], ps[|ps| - 1]))
    }

    /** The function that runs in m leaves by calling the one entered in m'. */
    ghost predicate LeavesFor(q: Point, m: Machine, ts: TState, m': Machine, ts': TState) {
      exists k: nat :: m.Steps(k, ts) == Exited(TailCalled(W(sem.prims.address(q.lab)), m'.fargs, q.mem, ts'.frame))
    }

    /** At every point of the source's run the target is at the entry of the same cluster's function, called by
        the function before. */
    ghost predicate Follows(ps: seq<Point>, ms: seq<(Machine, TState)>)
      decreases |ps|
    {
      && |ms| == |ps| > 0
      && var n := |ps| - 1;
      && EnteredAt(ps[n], ms[n].0, ms[n].1)
      && (n > 0 ==> Follows(ps[..n], ms[..n]))
      && (n > 0 ==> LeavesFor(ps[n], ms[n - 1].0, ms[n - 1].1, ms[n].0, ms[n].1))
    }

    /** The target follows the source through any number of calls between clusters. */
    lemma {:induction false} TraceFollows(ps: seq<Point>, m: Machine, ts: TState) returns (ms: seq<(Machine, TState)>)
      requires Trace(ps) && ps != [] && EnteredAt(ps[0], m, ts)
      ensures Follows(ps, ms) && ms != [] && ms[0] == (m, ts)
      decreases |ps|
    {
      hide *;
      if |ps| == 1 {
        ms := [(m, ts)];
        FollowsOne(ps, m, ts);
      } else {
        var front := ps[..|ps| - 1];
        var p, q := ps[|ps| - 2], ps[|ps| - 1];
        TraceParts(ps);
        ms := TraceFollows(front, m, ts);
        FollowsLast(front, ms);
        var last := ms[|ms| - 1];
        var m', ts' := AnyCallEnters(p, q, last.0, last.1);
        FollowsSnoc(ps, ms, m', ts');
        ms := ms + [(m', ts')];
      }
    }

    lemma TraceParts(ps: seq<Point>)
      requires Trace(ps) && |ps| > 1
      ensures Trace(ps[..|ps| - 1]) && Calls(ps[|ps| - 2], ps[|ps| - 1])
    {
      hide Calls;
    }

    lemma FollowsOne(ps: seq<Point>, m: Machine, ts: TState)
      requires |ps| == 1 && EnteredAt(ps[0], m, ts)
      ensures Follows(ps, [(m, ts)])
    {
      hide EnteredAt;
    }

    lemma AnyCallEnters(p: Point, q: Point, m: Machine, ts: TState) returns (m': Machine, ts': TState)
      requires EnteredAt(p, m, ts) && Calls(p, q)
      ensures LeavesFor(q, m, ts, m', ts') && EnteredAt(q, m', ts')
    {
      hide EnteredAt, CallsAfter, LeavesFor;
      var n: nat :| CallsAfter(p, q, n);
      m', ts' := CallEnters(p, q, n, m, ts);
    }

    lemma FollowsLast(ps: seq<Point>, ms: seq<(Machine, TState)>)
      requires Follows(ps, ms)
      ensures |ms| == |ps| > 0 && EnteredAt(ps[|ps| - 1], ms[|ms| - 1].0, ms[|ms| - 1].1)
    {
      hide EnteredAt, LeavesFor;
    }

    lemma FollowsSnoc(ps: seq<Point>, ms: seq<(Machine, TState)>, m': Machine, ts': TState)
      requires |ps| > 1 && Follows(ps[..|ps| - 1], ms) && |ms| == |ps| - 1 && EnteredAt(ps[|ps| - 1], m', ts')
      requires LeavesFor(ps[|ps| - 1], ms[|ms| - 1].0, ms[|ms| - 1].1, m', ts')
      ensures Follows(ps, ms + [(m', ts')])
    {
      hide EnteredAt, LeavesFor;
      assert (ms + [(m', ts')])[..|ps| - 1] == ms;
    }
  }
}
