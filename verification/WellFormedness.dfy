/** Every well-scoped cluster becomes a well-formed function in static single assignment form. */
module WellFormedness {
  import opened Common
  import opened CMRegisters
  import opened TargetIR
  import opened CFG
  import opened CodeBuilder
  import opened Growth
  import opened Phis
  import opened Creation
  import opened Correctness
  import opened ClusterCorrectness
  import opened WholeRuns
  import opened Definitions
  import opened SSAForm
  import opened Dominance

  /** Blocks all end in a terminator; each phi has exactly one value for each edge into its block; edges stay
      inside the function and none leads to the entry block, which has no phis; every name is defined once,
      and its definition dominates its uses. */
  ghost predicate WellFormed(bs: seq<Block>) {
    && |bs| > 0 && bs[0].phis == []
    && (forall b :: 0 <= b < |bs| ==> bs[b].term.Some? && 0 !in Succs(bs[b].term))
    && PhisExact(bs) && EdgesInside(bs) && SingleDefs(bs) && Dominated(bs)
  }

  // ----- after block creation -----

  ghost predicate Blank(blk: Block) {
    blk.body == [] && blk.term.None? && forall i :: 0 <= i < |blk.phis| ==> blk.phis[i].incoming == []
  }

  lemma {:induction false} BlanksNames(st: Builder, n: nat)
    requires UniqueNames(st.blocks, st.next)
    ensures UniqueNames(st.blocks + EmptyBlocks(n), st.next)
  {
    if n == 0 {
      assert st.blocks + EmptyBlocks(0) == st.blocks;
    } else {
      BlanksNames(st, n - 1);
      NamesAppend(st.blocks + EmptyBlocks(n - 1), EMPTY_BLOCK, st.next, st.next);
      assert st.blocks + EmptyBlocks(n) == st.blocks + EmptyBlocks(n - 1) + [EMPTY_BLOCK];
    }
  }

  lemma InitFragNames(t: TargetInfo, st: Builder, f: Frag)
    requires |t.stkOffset| == NUM_REGS && UniqueNames(st.blocks, st.next)
    ensures var st' := InitFrag(t, st, f).0; UniqueNames(st'.blocks, st'.next)
  {
    var b := |st.blocks|;
    var n := if f.kind == INTERNAL then |MachineRegs(t)| + |f.params| else 0;
    var entry := EMPTY_BLOCK.(phis := seq(n, i requires 0 <= i < n => Phi(st.next + i, [])));
    NamesAppend(st.blocks, entry, st.next, st.next + n);
    BlanksNames(st.(blocks := st.blocks + [entry], next := st.next + n), InitStm(b + 1, f.body.body).0 - b - 1);
  }

  lemma {:induction false} InitFragsBlank(t: TargetInfo, fs: seq<Frag>)
    requires |t.stkOffset| == NUM_REGS
    ensures var (st, fs') := InitFrags(t, InitialBuilder(), fs);
      && UniqueNames(st.blocks, st.next) && (forall b :: 0 <= b < |st.blocks| ==> Blank(st.blocks[b])) && st.ovf.None?
      && (fs != [] && fs[0].kind != INTERNAL ==> st.blocks[0].phis == [])
  {
    if fs != [] {
      var st1 := InitFrags(t, InitialBuilder(), fs[..|fs| - 1]).0;
      InitFragsBlank(t, fs[..|fs| - 1]);
      InitFragNames(t, st1, fs[|fs| - 1]);
      hide UniqueNames;
    }
  }

  /** Block b belongs to one of the fragments. */
  ghost predicate Covered(fs: seq<Frag>, b: nat) {
    exists i :: 0 <= i < |fs| && ArmBB(fs[i].body) <= b < End(fs[i])
  }

  ghost predicate AllCovered(fs: seq<Frag>, n: nat) {
    forall b :: 0 <= b < n ==> Covered(fs, b)
  }

  lemma {:induction false} InitFragsCover(t: TargetInfo, fs: seq<Frag>)
    requires |t.stkOffset| == NUM_REGS
    ensures var (st, fs') := InitFrags(t, InitialBuilder(), fs); AllCovered(fs', |st.blocks|)
  {
    if fs != [] {
      var (st1, fs1) := InitFrags(t, InitialBuilder(), fs[..|fs| - 1]);
      InitFragsCover(t, fs[..|fs| - 1]);
      InitFragsSnoc(t, fs);
      FragSpans(t, st1, fs[|fs| - 1]);
      var (st, f) := InitFrag(t, st1, fs[|fs| - 1]);
      hide InitFrags, InitFrag, End, ArmBB;
      assert AllCovered(fs1, |st1.blocks|);
      forall b | 0 <= b < |st.blocks| ensures Covered(fs1 + [f], b) {
        if b < |st1.blocks| { assert Covered(fs1, b); }
        CoveredSnoc(fs1, f, b);
      }
    }
  }

  lemma FragSpans(t: TargetInfo, st: Builder, f: Frag)
    requires |t.stkOffset| == NUM_REGS
    ensures var (st', f') := InitFrag(t, st, f); ArmBB(f'.body) == |st.blocks| && End(f') == |st'.blocks|
  {
    InitNumbers(|st.blocks| + 1, f.body.body);
  }

  lemma CoveredSnoc(fs: seq<Frag>, f: Frag, b: nat)
    requires Covered(fs, b) || ArmBB(f.body) <= b < End(f)
    ensures Covered(fs + [f], b)
  {
    if Covered(fs, b) {
      var i :| 0 <= i < |fs| && ArmBB(fs[i].body) <= b < End(fs[i]);
      assert (fs + [f])[i] == fs[i];
    } else {
      assert (fs + [f])[|fs|] == f;
    }
  }

  // ----- the ledger before any code is generated -----

  /** The blocks of all arms. */
  function FragArms(fs: seq<Frag>): set<nat> {
    if fs == [] then {}
    else FragArms(fs[..|fs| - 1]) + Range(ArmBB(fs[|fs| - 1].body) + 1, End(fs[|fs| - 1]))
  }

  lemma {:induction false} FragArmsHas(fs: seq<Frag>, b: nat)
    ensures b in FragArms(fs) <==> exists i :: 0 <= i < |fs| && ArmBB(fs[i].body) < b < End(fs[i])
  {
    if fs != [] {
      var front := fs[..|fs| - 1];
      FragArmsHas(front, b);
      if b in FragArms(front) {
        var i :| 0 <= i < |front| && ArmBB(front[i].body) < b < End(front[i]);
        assert fs[i] == front[i];
      }
      if i :| 0 <= i < |fs| && ArmBB(fs[i].body) < b < End(fs[i]) {
        if i < |front| { assert front[i] == fs[i]; }
      }
    }
  }

  /** The blocks of fragments from i on are as block creation left them. */
  ghost predicate FragsFree(fs: seq<Frag>, i: nat, g: Ledger) {
    forall j :: i <= j < |fs| ==>
      && ArmBB(fs[j].body) < |g.av| && g.av[ArmBB(fs[j].body)] == {} && ArmBB(fs[j].body) !in g.idle
      && Owned(g, ArmBB(fs[j].body) + 1, NumArms(fs[j].body.body))
  }

  function FirstLedger(st: Builder, fs: seq<Frag>): Ledger {
    Ledger(seq(|st.blocks|, _ => {}), FragArms(fs), FragArms(fs) + {0})
  }

  lemma BlankCertified(bs: seq<Block>, av: seq<set<nat>>)
    requires |av| == |bs| && forall b :: 0 <= b < |bs| ==> Blank(bs[b])
    ensures Certificate(bs, av)
  {
    hide GoodCode, Dsts;
    forall b | 0 <= b < |bs| ensures CodeOk(bs, av, b) {
      assert Blank(bs[b]);
      NoCode(Starts(bs, av, b));
    }
    forall b, i | 0 <= b < |bs| && 0 <= i < |bs[b].phis| ensures PhiOk(bs, av, bs[b].phis[i]) {
      assert Blank(bs[b]);
    }
  }

  lemma FirstBlanks(c: Context, st: Builder, fs0: seq<Frag>, fs: seq<Frag>)
    requires Created(c, st, fs0, fs) && st.cur == 0 && |fs| > 0 && ArmBB(fs[0].body) == 0 && |st.blocks| > 0
    requires forall b :: 0 <= b < |st.blocks| ==> Blank(st.blocks[b])
    ensures Blanks(st, FirstLedger(st, fs)) && FragsFree(fs, 0, FirstLedger(st, fs))
  {
    hide Created, FragArms, CreatedFrag, InOrder, NumArms;
    var g := FirstLedger(st, fs);
    forall b | b in FragArms(fs) ensures b < |st.blocks| && st.blocks[b] == EMPTY_BLOCK && b > 0 {
      ArmIsEmpty(c, st, fs0, fs, b);
    }
    forall j | 0 <= j < |fs|
      ensures ArmBB(fs[j].body) < |g.av| && ArmBB(fs[j].body) !in g.idle
      ensures Owned(g, ArmBB(fs[j].body) + 1, NumArms(fs[j].body.body))
    {
      FragIsFree(c, st, fs0, fs, j);
    }
    forall p | 0 <= p < |st.blocks| ensures Succs(st.blocks[p].term) == [] { assert Blank(st.blocks[p]); }
    hide Blank;
  }

  lemma ArmIsEmpty(c: Context, st: Builder, fs0: seq<Frag>, fs: seq<Frag>, b: nat)
    requires Created(c, st, fs0, fs) && b in FragArms(fs)
    ensures 0 < b < |st.blocks| && st.blocks[b] == EMPTY_BLOCK
  {
    FragArmsHas(fs, b);
    var i :| 0 <= i < |fs| && ArmBB(fs[i].body) < b < End(fs[i]);
    assert CreatedFrag(c, st, fs0[i], fs[i]);
  }

  lemma FragIsFree(c: Context, st: Builder, fs0: seq<Frag>, fs: seq<Frag>, j: nat)
    requires Created(c, st, fs0, fs) && j < |fs|
    ensures var g := FirstLedger(st, fs); ArmBB(fs[j].body) < |g.av| && ArmBB(fs[j].body) !in g.idle
    ensures Owned(FirstLedger(st, fs), ArmBB(fs[j].body) + 1, NumArms(fs[j].body.body))
  {
    assert CreatedFrag(c, st, fs0[j], fs[j]);
    StartIsNoArm(fs, j);
    forall b | ArmBB(fs[j].body) + 1 <= b < End(fs[j]) ensures b in FragArms(fs) {
      FragArmsHas(fs, b);
    }
  }

  lemma StartIsNoArm(fs: seq<Frag>, j: nat)
    requires InOrder(fs) && j < |fs|
    ensures ArmBB(fs[j].body) !in FragArms(fs)
  {
    var b := ArmBB(fs[j].body);
    FragArmsHas(fs, b);
    forall i | 0 <= i < |fs| ensures !(ArmBB(fs[i].body) < b < End(fs[i])) {
      if i < j {
        assert End(fs[i]) <= ArmBB(fs[j].body);
      } else if j < i {
        assert End(fs[j]) <= ArmBB(fs[i].body);
      }
    }
  }

  lemma FirstInv(c: Context, cl: Cluster)
    requires WellScoped(c, cl)
    ensures var (st, fs) := InitFrags(c.target, InitialBuilder(), cl.frags);
      Inv(c, st, FirstLedger(st, fs)) && FragsFree(fs, 0, FirstLedger(st, fs)) && st.blocks[0].phis == []
  {
    var (st, fs) := InitFrags(c.target, InitialBuilder(), cl.frags);
    InitPrepares(c, cl);
    InitFragsRegs(c.target, cl.frags);
    InitFragsBlank(c.target, cl.frags);
    var g := FirstLedger(st, fs);
    hide InitFrags, UniqueNames, Certificate, Blanks, FragsFree;
    FirstBlanks(c, st, cl.frags, fs);
    BlankCertified(st.blocks, g.av);
    FirstLandings(c, cl, st, fs);
  }

  lemma FirstLandings(c: Context, cl: Cluster, st: Builder, fs: seq<Frag>)
    requires WellScoped(c, cl) && Created(c, st, cl.frags, fs) && ArmBB(fs[0].body) == 0
    ensures Landings(c, st, FirstLedger(st, fs))
  {
    var g := FirstLedger(st, fs);
    forall lab | lab in c.arity ensures lab in st.frags && Landing(g, st.frags[lab]) {
      var i :| 0 < i < |cl.frags| && cl.frags[i].lab == lab && c.arity[lab] == |cl.frags[i].params|;
      assert CreatedFrag(c, st, cl.frags[i], fs[i]);
      StartIsNoArm(fs, i);
      assert End(fs[0]) <= ArmBB(fs[i].body);
    }
  }

  // ----- fragment by fragment -----

  /** A fragment's line starts with its registers and parameters available. */
  lemma SetupLine(c: Context, st: Builder, f0: Frag, f: Frag, isEntry: bool)
    requires st.Ok() && CreatedFrag(c, st, f0, f) && (isEntry || f.kind == INTERNAL)
    requires StackRegsNone(c.target, st.regs) && NoDup(f.params)
    ensures var st1 := SetupFrag(c.target, st, f, isEntry); var names := PhiDsts(st.blocks[ArmBB(f.body)].phis);
      RegsOk(c.target, st1.regs, names) && VarsOk(st1.vMap, Elems(f.params), names)
  {
    var t, phis := c.target, st.blocks[ArmBB(f.body)].phis;
    var os := if isEntry then EntryParams(t, f) else PhiParams(t, phis, |f.params|);
    SetupIs(c, st, f0, f, isEntry);
    SetupRegs(c, st, f0, f, isEntry);
    forall i | 0 <= i < |phis| ensures Defined(Id(phis[i].dst), PhiDsts(phis)) {}
    assert AllDefined(os, PhiDsts(phis));
    assert f.params[..|f.params|] == f.params;
    BindParamsBinds(f.params, os, |f.params|);
    forall x | x in Elems(f.params)
      ensures x in SetupFrag(t, st, f, isEntry).vMap && Defined(SetupFrag(t, st, f, isEntry).vMap[x], PhiDsts(phis))
    {
      var i :| 0 <= i < |f.params| && f.params[i] == x;
    }
    SetupRegsDefined(t, st.regs, phis, isEntry);
  }

  lemma SetupRegsDefined(t: TargetInfo, regs: seq<Option<Operand>>, phis: seq<Phi>, isEntry: bool)
    requires StackRegsNone(t, regs) && (isEntry || |phis| >= |MachineRegs(t)|)
    ensures RegsOk(t, if isEntry then StdEntryRegs(t, regs, NUM_REGS)
      else FragEntryRegs(t, regs, phis, |MachineRegs(t)|), PhiDsts(phis))
  {
    if isEntry {
      StdEntryRegsAre(t, regs, NUM_REGS);
    } else {
      FragEntryRegsAre(t, regs, phis, |MachineRegs(t)|);
      forall r: RegId | t.IsMachineReg(r)
        ensures MachineIx(t, r) < |MachineRegs(t)| && phis[MachineIx(t, r)].dst in PhiDsts(phis)
      {
        MachineIxIndexesTable(t, r);
      }
    }
  }

  lemma SetupInv(c: Context, st: Builder, fs0: seq<Frag>, fs: seq<Frag>, i: nat, g: Ledger)
    requires Pending(c, st, fs0, fs, i) && i < |fs| && (i == 0 || fs[i].kind == INTERNAL) && WellScopedFrag(c, fs0[i])
    requires Inv(c, st, g) && FragsFree(fs, i, g)
    ensures var st1 := SetupFrag(c.target, st, fs[i], i == 0); Inv(c, st1, g) && Live(c, st1, g, Elems(fs[i].params))
  {
    var f := fs[i];
    var b := ArmBB(f.body);
    var st1 := SetupFrag(c.target, st, f, i == 0);
    assert CreatedFrag(c, st, fs0[i], f);
    SetupSteady(c, st, fs0, fs, i);
    SetupLine(c, st, fs0[i], f, i == 0);
    NoCode(PhiDsts(st.blocks[b].phis));
    assert st1.blocks == st.blocks && st1.cur == b && b < |st.blocks| && st.blocks[b].body == [] && Open(st1);
    hide SetupFrag, CreatedFrag, Pending, GoodCode, Dsts, Certificate, UniqueNames, WellScopedFrag, Steady, Numbered,
      NumArms;
    assert Starts(st1.blocks, g.av, b) == PhiDsts(st.blocks[b].phis);
    assert Avail(Starts(st1.blocks, g.av, b), st1.OpenLine()) == PhiDsts(st.blocks[b].phis);
  }

  lemma FragBodyOk(c: Context, st: Builder, fs0: seq<Frag>, fs: seq<Frag>, i: nat)
    requires Pending(c, st, fs0, fs, i) && i < |fs| && (i == 0 || fs[i].kind == INTERNAL) && WellScopedFrag(c, fs0[i])
    ensures StmOk(c, fs[i].body.body, Elems(fs[i].params), SetupFrag(c.target, st, fs[i], i == 0).vMap)
    ensures Numbered(fs[i].body.body, ArmBB(fs[i].body) + 1)
  {
    BodyStart(c, st, fs0, fs, i);
    BodyStatic(c, st, fs0, fs, i);
    hide Pending, SetupFrag, WellScopedFrag, CreatedFrag, Steady, Numbered, Scoped, UniqueBinders;
  }

  lemma FragInv(c: Context, st: Builder, fs0: seq<Frag>, fs: seq<Frag>, i: nat, g: Ledger) returns (g': Ledger)
    requires Pending(c, st, fs0, fs, i) && i < |fs| && (i == 0 || fs[i].kind == INTERNAL) && WellScopedFrag(c, fs0[i])
    requires Inv(c, st, g) && FragsFree(fs, i, g) && 0 in g.unlinked
    ensures Inv(c, GenFrag(c.target, c.clusters, st, fs[i], i == 0), g') && FragsFree(fs, i + 1, g') && 0 in g'.unlinked
    ensures Leaves(g, g', ArmBB(fs[i].body) + 1, NumArms(fs[i].body.body))
  {
    hide *;
    var f := fs[i];
    InOrderOk(c, st, fs0, fs, i);
    SetupInv(c, st, fs0, fs, i, g);
    FragBodyOk(c, st, fs0, fs, i);
    BodyStart(c, st, fs0, fs, i);
    FragOwned(fs, i, g);
    g' := StmInv(c, SetupFrag(c.target, st, f, i == 0), f.body.body, Elems(f.params), ArmBB(f.body) + 1, g);
    StillFree(fs, i, g, g');
  }

  lemma FragOwned(fs: seq<Frag>, i: nat, g: Ledger)
    requires FragsFree(fs, i, g) && i < |fs|
    ensures Owned(g, ArmBB(fs[i].body) + 1, NumArms(fs[i].body.body))
  {}

  lemma InOrderOk(c: Context, st: Builder, fs0: seq<Frag>, fs: seq<Frag>, i: nat)
    requires Pending(c, st, fs0, fs, i)
    ensures InOrder(fs) && st.Ok() && |c.target.stkOffset| == NUM_REGS && |fs| == |fs0|
  {}

  lemma StillFree(fs: seq<Frag>, i: nat, g: Ledger, g': Ledger)
    requires i < |fs| && InOrder(fs) && FragsFree(fs, i, g)
    requires Leaves(g, g', ArmBB(fs[i].body) + 1, NumArms(fs[i].body.body))
    ensures FragsFree(fs, i + 1, g') && (0 in g.unlinked ==> 0 in g'.unlinked)
  {
    forall j | i + 1 <= j < |fs|
      ensures ArmBB(fs[j].body) < |g'.av| && g'.av[ArmBB(fs[j].body)] == {} && ArmBB(fs[j].body) !in g'.idle
      ensures Owned(g', ArmBB(fs[j].body) + 1, NumArms(fs[j].body.body))
    {
      assert End(fs[i]) <= ArmBB(fs[j].body);
      assert Owned(g, ArmBB(fs[j].body) + 1, NumArms(fs[j].body.body));
    }
  }

  // ----- the whole cluster -----

  /** Fragments below i, and blocks added meanwhile, are finished. */
  ghost predicate Sealed(st: Builder, fs: seq<Frag>, i: nat, n: nat)
    requires i <= |fs|
  {
    (forall j :: 0 <= j < i ==> Finished(st, ArmBB(fs[j].body), End(fs[j]))) && Finished(st, n, |st.blocks|)
  }

  lemma SealedStep(st: Builder, st': Builder, fs: seq<Frag>, i: nat, n: nat)
    requires i < |fs| && Sealed(st, fs, i, n) && FragGrows(st, st', fs[i])
    requires forall j :: 0 <= j < i ==> End(fs[j]) <= |st.blocks|
    ensures Sealed(st', fs, i + 1, n)
  {
    forall j, b | 0 <= j < i && ArmBB(fs[j].body) <= b < End(fs[j]) ensures st'.blocks[b].term.Some? {
      assert Finished(st, ArmBB(fs[j].body), End(fs[j]));
      assert BlockGrows(st.blocks[b], st'.blocks[b]);
    }
    forall b | n <= b < |st'.blocks| ensures st'.blocks[b].term.Some? {
      if b < |st.blocks| { assert BlockGrows(st.blocks[b], st'.blocks[b]); }
    }
  }

  /** Invariants of generation, fragment by fragment. */
  ghost predicate Generated(c: Context, cl: Cluster, st: Builder, fs: seq<Frag>, i: nat, g: Ledger)
    requires Prepared(c, cl, st, fs) && i <= |fs|
  {
    && Inv(c, Gen(c, st, fs, i), g) && FragsFree(fs, i, g) && 0 in g.unlinked
    && Sealed(Gen(c, st, fs, i), fs, i, |st.blocks|)
  }

  lemma EndsInside(c: Context, cl: Cluster, st: Builder, fs: seq<Frag>, i: nat)
    requires Prepared(c, cl, st, fs) && i <= |fs|
    ensures forall j :: 0 <= j < |fs| ==> End(fs[j]) <= |Gen(c, st, fs, i).blocks|
    ensures |st.blocks| <= |Gen(c, st, fs, i).blocks|
  {
    GenIncluded(c, cl, st, fs, 0, i);
    forall j | 0 <= j < |fs| ensures End(fs[j]) <= |st.blocks| { assert CreatedFrag(c, st, cl.frags[j], fs[j]); }
  }

  lemma {:induction false} AllGenerated(c: Context, cl: Cluster, st: Builder, fs: seq<Frag>, i: nat, g0: Ledger)
    returns (g: Ledger)
    requires Prepared(c, cl, st, fs) && i <= |fs| && Inv(c, st, g0) && FragsFree(fs, 0, g0) && 0 in g0.unlinked
    ensures Generated(c, cl, st, fs, i, g)
  {
    g := g0;
    if i > 0 {
      var g1 := AllGenerated(c, cl, st, fs, i - 1, g0);
      g := NextGenerated(c, cl, st, fs, i - 1, g1);
    }
  }

  lemma NextGenerated(c: Context, cl: Cluster, st: Builder, fs: seq<Frag>, i: nat, g: Ledger) returns (g': Ledger)
    requires Prepared(c, cl, st, fs) && i < |fs| && Generated(c, cl, st, fs, i, g)
    ensures Generated(c, cl, st, fs, i + 1, g')
  {
    var st1 := Gen(c, st, fs, i);
    assert st.Ok() && |c.target.stkOffset| == NUM_REGS;
    assert Gen(c, st, fs, i + 1) == GenFrag(c.target, c.clusters, st1, fs[i], i == 0);
    EndsInside(c, cl, st, fs, i);
    hide Inv, FragsFree, Sealed, FragGrows, GenFrag, WellScopedFrag, End;
    GenPending(c, cl, st, fs, i);
    KindsKept(c, cl, st, fs, i);
    hide Pending, Gen;
    GenFragGrows(c, st1, cl.frags, fs, i);
    SealedStep(st1, Gen(c, st, fs, i + 1), fs, i, |st.blocks|);
    g' := FragInv(c, st1, cl.frags, fs, i, g);
  }

  lemma AllSealed(st0: Builder, st: Builder, fs: seq<Frag>)
    requires Sealed(st, fs, |fs|, |st0.blocks|) && AllCovered(fs, |st0.blocks|)
    ensures forall b :: 0 <= b < |st.blocks| ==> st.blocks[b].term.Some?
  {
    forall b | 0 <= b < |st.blocks| ensures st.blocks[b].term.Some? {
      if b < |st0.blocks| {
        assert Covered(fs, b);
        var i :| 0 <= i < |fs| && ArmBB(fs[i].body) <= b < End(fs[i]);
        assert Finished(st, ArmBB(fs[i].body), End(fs[i]));
      }
    }
  }

  /** The main well-formedness theorem. */
  lemma ClusterWellFormed(c: Context, cl: Cluster)
    requires WellScoped(c, cl)
    ensures WellFormed(GenCluster(c.target, c.clusters, cl).blocks)
  {
    var (st, fs) := InitFrags(c.target, InitialBuilder(), cl.frags);
    InitPrepares(c, cl);
    FirstInv(c, cl);
    InitFragsCover(c.target, cl.frags);
    assert GenCluster(c.target, c.clusters, cl) == Gen(c, st, fs, |fs|);
    assert |st.blocks| > 0;
    var g0 := FirstLedger(st, fs);
    assert 0 in g0.unlinked;
    hide InitFrags, WellScoped, Prepared, Created, Inv, FragsFree, Pending, GenCluster;
    var g := AllGenerated(c, cl, st, fs, |fs|, g0);
    GenPending(c, cl, st, fs, |fs|);
    GenIncluded(c, cl, st, fs, 0, |fs|);
    FinalBlocks(c, st, Gen(c, st, fs, |fs|), cl.frags, fs, g);
  }

  lemma FinalBlocks(c: Context, st0: Builder, st: Builder, fs0: seq<Frag>, fs: seq<Frag>, g: Ledger)
    requires Inv(c, st, g) && 0 in g.unlinked && Pending(c, st, fs0, fs, |fs|) && BlocksGrow(st0.blocks, st.blocks)
    requires Sealed(st, fs, |fs|, |st0.blocks|) && AllCovered(fs, |st0.blocks|)
    requires |st0.blocks| > 0 && st0.blocks[0].phis == []
    ensures WellFormed(st.blocks)
  {
    AllSealed(st0, st, fs);
    assert g.av[0] == {};
    CertificateDominates(st.blocks, g.av);
    assert BlockGrows(st0.blocks[0], st.blocks[0]);
  }
}
