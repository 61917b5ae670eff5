/** A generated function, run from its entry, does what its cluster does. */
module ClusterCorrectness {
  import opened Common
  import opened CMRegisters
  import opened TargetIR
  import opened CFG
  import opened CodeBuilder
  import opened StraightLine
  import opened Growth
  import opened Phis
  import opened Simulation
  import opened Variables
  import opened Control
  import opened Correctness
  import opened Creation

  // ----- setting up a fragment -----

  lemma {:induction false} BindParamsBinds(xs: seq<LVar>, os: seq<Operand>, n: nat)
    requires n <= |xs| == |os| && NoDup(xs)
    ensures var v := BindParams(xs, os, n);
      v.Keys == Elems(xs[..n]) && forall i :: 0 <= i < n ==> xs[i] in v && v[xs[i]] == os[i]
  {
    if n > 0 {
      BindParamsBinds(xs, os, n - 1);
      assert xs[..n] == xs[..n - 1] + [xs[n - 1]];
      assert xs[n - 1] !in xs[..n - 1];
      assert Elems(xs[..n]) == Elems(xs[..n - 1]) + {xs[n - 1]};
    }
  }

  lemma {:induction false} BindAllBinds(xs: seq<LVar>, ws: seq<Word>, n: nat)
    requires n <= |xs| == |ws| && NoDup(xs)
    ensures var env := BindAll(map[], xs, ws, n); forall i :: 0 <= i < n ==> xs[i] in env && env[xs[i]] == ws[i]
  {
    if n > 0 {
      BindAllBinds(xs, ws, n - 1);
    }
  }

  lemma {:induction false} StdEntryRegsAre(t: TargetInfo, regs: seq<Option<Operand>>, n: nat)
    requires |regs| == NUM_REGS && |t.stkOffset| == NUM_REGS && n <= NUM_REGS
    ensures forall r: RegId :: r < n ==>
      StdEntryRegs(t, regs, n)[r] == if t.IsMachineReg(r) then Some(Arg(MachineIx(t, r))) else None
  {
    if n > 0 { StdEntryRegsAre(t, regs, n - 1); }
  }

  lemma {:induction false} FragEntryRegsAre(t: TargetInfo, regs: seq<Option<Operand>>, phis: seq<Phi>, n: nat)
    requires |regs| == NUM_REGS && |t.stkOffset| == NUM_REGS && n <= |MachineRegs(t)| <= |phis|
    ensures var rs := FragEntryRegs(t, regs, phis, n);
      && (forall r: RegId :: t.IsMachineReg(r) && MachineIx(t, r) < n ==> rs[r] == Some(Id(phis[MachineIx(t, r)].dst)))
      && (forall r: RegId :: !t.IsMachineReg(r) ==> rs[r] == regs[r])
  {
    if n > 0 {
      FragEntryRegsAre(t, regs, phis, n - 1);
      TableIsSound(t, NUM_REGS, n - 1);
      forall r: RegId | t.IsMachineReg(r) && MachineIx(t, r) == n - 1 ensures r == MachineRegs(t)[n - 1] {
        MachineIxIndexesTable(t, r);
      }
    }
  }

  /** Registers kept in stack slots are never SSA values. */
  ghost predicate StackRegsNone(t: TargetInfo, regs: seq<Option<Operand>>) {
    |regs| == NUM_REGS && |t.stkOffset| == NUM_REGS && forall r: RegId :: !t.IsMachineReg(r) ==> regs[r].None?
  }

  /** What a fragment's parameters and registers are at its start. */
  ghost predicate StartsWith(m: Machine, st: Builder, f: Frag, args: seq<Word>, regs: seq<Word>, mem: Mem, ts: TState) {
    && Setting(m) && |args| == |f.params| && |regs| == NUM_REGS && |st.regs| == NUM_REGS
    && (forall i :: 0 <= i < |args| ==>
      f.params[i] in st.vMap && Holds(m, st.next, st.vMap[f.params[i]], ts.rho, args[i]))
    && (forall r: RegId :: m.target.IsMachineReg(r) ==>
      st.regs[r].Some? && Holds(m, st.next, st.regs[r].value, ts.rho, regs[r]))
    && (forall r: RegId :: !m.target.IsMachineReg(r) ==> st.regs[r].None?)
    && SlotsHold(m, regs, ts.frame) && RuntimeIn(m, ts.frame) && ts.mem == mem
  }

  lemma StartMatches(m: Machine, st: Builder, f: Frag, args: seq<Word>, regs: seq<Word>, mem: Mem, ts: TState)
    requires StartsWith(m, st, f, args, regs, mem, ts) && NoDup(f.params)
    requires st.Ok() && st.blocks[st.cur].body == [] && ts.block == st.cur && ts.ix == 0
    ensures At(m, st, Elems(f.params), SState(BindAll(map[], f.params, args, |args|), regs, mem), ts)
  {
    var env := BindAll(map[], f.params, args, |args|);
    BindAllBinds(f.params, args, |args|);
    forall x | x in Elems(f.params)
      ensures x in env && x in st.vMap && Holds(m, st.next, st.vMap[x], ts.rho, env[x])
    {
      var i :| 0 <= i < |f.params| && f.params[i] == x;
    }
  }

  /** The generator's state when a fragment's body is about to be generated. */
  lemma SetupIs(c: Context, st: Builder, f0: Frag, f: Frag, isEntry: bool)
    requires st.Ok() && CreatedFrag(c, st, f0, f) && (isEntry || f.kind == INTERNAL)
    ensures var t, b := c.target, ArmBB(f.body); var phis := st.blocks[b].phis;
      && (isEntry || |phis| == |MachineRegs(t)| + |f.params|)
      && SetupFrag(t, st, f, isEntry) == st.(cur := b,
           regs := if isEntry then StdEntryRegs(t, st.regs, NUM_REGS)
             else FragEntryRegs(t, st.regs, phis, |MachineRegs(t)|),
           vMap := BindParams(f.params, if isEntry then EntryParams(t, f)
             else PhiParams(t, phis, |f.params|), |f.params|))
  {}

  /** Parameters stand for their arguments if their operands do. */
  lemma ParamsHold(m: Machine, n: nat, xs: seq<LVar>, os: seq<Operand>, args: seq<Word>, rho: map<nat, Val>)
    requires AllHold(m, n, os, rho, args) && |xs| == |os| && NoDup(xs)
    ensures var v := BindParams(xs, os, |xs|);
      forall i :: 0 <= i < |args| ==> xs[i] in v && Holds(m, n, v[xs[i]], rho, args[i])
  {
    BindParamsBinds(xs, os, |xs|);
    forall i | 0 <= i < |args| ensures Holds(m, n, BindParams(xs, os, |xs|)[xs[i]], rho, args[i]) {
      assert Holds(m, n, os[i], rho, args[i]);
    }
  }

  /** The values of a fragment's phis, registers first. */
  ghost predicate PhiValues(m: Machine, n: nat, phis: seq<Phi>, regs: seq<Word>, args: seq<Word>, rho: map<nat, Val>) {
    && |m.target.stkOffset| == NUM_REGS && |regs| == NUM_REGS && |phis| == |MachineRegs(m.target)| + |args|
    && (forall k :: 0 <= k < |MachineRegs(m.target)| ==>
      Holds(m, n, Id(phis[k].dst), rho, MachineWords(m.target, regs)[k]))
    && AllHold(m, n, PhiParams(m.target, phis, |args|), rho, args)
  }

  lemma AtFragValues(m: Machine, c: Context, st: Builder, f0: Frag, f: Frag, args: seq<Word>, regs: seq<Word>,
                     mem: Mem, ts: TState)
    requires m.target == c.target && CreatedFrag(c, st, f0, f) && f.kind == INTERNAL && |args| == |f.params|
    requires AtFrag(m, ArmBB(f.body), args, regs, mem, ts) && Includes(m, st)
    ensures PhiValues(m, st.next, st.blocks[ArmBB(f.body)].phis, regs, args, ts.rho)
  {
    var b := ArmBB(f.body);
    var phis, hw, all := st.blocks[b].phis, |MachineRegs(m.target)|, MachineWords(m.target, regs) + args;
    assert BlockGrows(st.blocks[b], m.blocks[b]);
    forall i | 0 <= i < |phis| ensures Holds(m, st.next, Id(phis[i].dst), ts.rho, all[i]) {
      assert m.blocks[b].phis[i].dst == phis[i].dst;
    }
    forall i | 0 <= i < |args| ensures Holds(m, st.next, PhiParams(m.target, phis, |args|)[i], ts.rho, args[i]) {
      assert all[hw + i] == args[i];
    }
    forall k | 0 <= k < hw ensures Holds(m, st.next, Id(phis[k].dst), ts.rho, MachineWords(m.target, regs)[k]) {
      assert all[k] == MachineWords(m.target, regs)[k];
    }
  }

  lemma InternalRegs(m: Machine, n: nat, before: seq<Option<Operand>>, phis: seq<Phi>, regs: seq<Word>,
                     args: seq<Word>, rho: map<nat, Val>)
    requires PhiValues(m, n, phis, regs, args, rho) && StackRegsNone(m.target, before)
    ensures var rs := FragEntryRegs(m.target, before, phis, |MachineRegs(m.target)|);
      && (forall r: RegId :: m.target.IsMachineReg(r) ==> rs[r].Some? && Holds(m, n, rs[r].value, rho, regs[r]))
      && StackRegsNone(m.target, rs)
  {
    var t := m.target;
    var rs := FragEntryRegs(t, before, phis, |MachineRegs(t)|);
    FragEntryRegsAre(t, before, phis, |MachineRegs(t)|);
    forall r: RegId | t.IsMachineReg(r) ensures rs[r].Some? && Holds(m, n, rs[r].value, rho, regs[r]) {
      MachineIxIndexesTable(t, r);
    }
  }

  lemma SetupInternal(m: Machine, c: Context, st: Builder, f0: Frag, f: Frag, args: seq<Word>, regs: seq<Word>,
                      mem: Mem, ts: TState)
    requires Setting(m) && m.target == c.target && st.Ok() && CreatedFrag(c, st, f0, f) && f.kind == INTERNAL
    requires NoDup(f.params)
    requires StackRegsNone(c.target, st.regs) && |args| == |f.params|
    requires AtFrag(m, ArmBB(f.body), args, regs, mem, ts) && Includes(m, st)
    ensures StartsWith(m, SetupFrag(c.target, st, f, false), f, args, regs, mem, ts)
  {
    var phis := st.blocks[ArmBB(f.body)].phis;
    SetupIs(c, st, f0, f, false);
    AtFragValues(m, c, st, f0, f, args, regs, mem, ts);
    hide SetupFrag, CreatedFrag, Includes, BlockGrows, Holds;
    InternalRegs(m, st.next, st.regs, phis, regs, args, ts.rho);
    ParamsHold(m, st.next, f.params, PhiParams(m.target, phis, |args|), args, ts.rho);
  }

  /** The actual arguments with which the function of a cluster is called. */
  ghost predicate CalledWith(m: Machine, kind: FragKind, args: seq<Word>, regs: seq<Word>) {
    && |m.target.stkOffset| == NUM_REGS && |regs| == NUM_REGS
    && |m.fargs| == |MachineRegs(m.target)| + NumUnused(kind) + |args|
    && (forall k :: 0 <= k < |MachineRegs(m.target)| ==> m.fargs[k] == W(MachineWords(m.target, regs)[k]))
    && (forall i :: 0 <= i < |args| ==> m.fargs[|MachineRegs(m.target)| + NumUnused(kind) + i] == W(args[i]))
  }

  lemma EntryRegs(m: Machine, n: nat, kind: FragKind, before: seq<Option<Operand>>, args: seq<Word>, regs: seq<Word>,
                  rho: map<nat, Val>)
    requires CalledWith(m, kind, args, regs) && |before| == NUM_REGS
    ensures var rs := StdEntryRegs(m.target, before, NUM_REGS);
      && (forall r: RegId :: m.target.IsMachineReg(r) ==> rs[r].Some? && Holds(m, n, rs[r].value, rho, regs[r]))
      && StackRegsNone(m.target, rs)
  {
    StdEntryRegsAre(m.target, before, NUM_REGS);
    forall r: RegId | m.target.IsMachineReg(r)
      ensures Holds(m, n, Arg(MachineIx(m.target, r)), rho, regs[r])
    {
      MachineIxIndexesTable(m.target, r);
    }
  }

  lemma EntryArgs(m: Machine, n: nat, f: Frag, args: seq<Word>, regs: seq<Word>, rho: map<nat, Val>)
    requires CalledWith(m, f.kind, args, regs) && |args| == |f.params|
    ensures AllHold(m, n, EntryParams(m.target, f), rho, args)
  {}

  lemma SetupEntry(m: Machine, c: Context, st: Builder, f0: Frag, f: Frag, args: seq<Word>, regs: seq<Word>, mem: Mem,
                   ts: TState)
    requires Setting(m) && m.target == c.target && st.Ok() && CreatedFrag(c, st, f0, f) && NoDup(f.params)
    requires |args| == |f.params|
    requires CalledWith(m, f.kind, args, regs) && SlotsHold(m, regs, ts.frame) && RuntimeIn(m, ts.frame)
    requires ts.mem == mem
    ensures StartsWith(m, SetupFrag(c.target, st, f, true), f, args, regs, mem, ts)
  {
    SetupIs(c, st, f0, f, true);
    EntryArgs(m, st.next, f, args, regs, ts.rho);
    hide SetupFrag, CreatedFrag, Holds, AllHold;
    EntryRegs(m, st.next, f.kind, st.regs, args, regs, ts.rho);
    ParamsHold(m, st.next, f.params, EntryParams(m.target, f), args, ts.rho);
  }

  // ----- the state between fragments -----

  /** Fragments from i on are still to be generated. */
  ghost predicate Pending(c: Context, st: Builder, fs0: seq<Frag>, fs: seq<Frag>, i: nat) {
    && |fs| == |fs0| && InOrder(fs) && st.Ok() && WellPhied(c, st) && Linked(st) && StackRegsNone(c.target, st.regs)
    && forall j :: i <= j < |fs| ==> CreatedFrag(c, st, fs0[j], fs[j])
  }

  lemma SetupSteady(c: Context, st: Builder, fs0: seq<Frag>, fs: seq<Frag>, i: nat)
    requires Pending(c, st, fs0, fs, i) && i < |fs| && (i == 0 || fs[i].kind == INTERNAL)
    ensures var st1 := SetupFrag(c.target, st, fs[i], i == 0); var b := ArmBB(fs[i].body);
      && st1 == st.(cur := b, regs := st1.regs, vMap := st1.vMap) && st1.Ok() && st1.blocks[b].body == []
      && Steady(c, st1, b + 1, NumArms(fs[i].body.body)) && Numbered(fs[i].body.body, b + 1)
      && StackRegsNone(c.target, st1.regs)
      && (NoDup(fs[i].params) ==> st1.vMap.Keys == Elems(fs[i].params))
  {
    var f := fs[i];
    assert CreatedFrag(c, st, fs0[i], f);
    SetupIs(c, st, fs0[i], f, i == 0);
    CreatedIs(c, st, fs0[i], f);
    SetupRegs(c, st, fs0[i], f, i == 0);
    SetupVars(c, st, fs0[i], f, i == 0);
  }

  lemma CreatedIs(c: Context, st: Builder, f0: Frag, f: Frag)
    requires CreatedFrag(c, st, f0, f)
    ensures Numbered(f.body.body, ArmBB(f.body) + 1) && Pristine(st, f) && End(f) <= |st.blocks|
  {
    InitNumbers(ArmBB(f.body) + 1, f0.body.body);
  }

  lemma SetupRegs(c: Context, st: Builder, f0: Frag, f: Frag, isEntry: bool)
    requires st.Ok() && CreatedFrag(c, st, f0, f) && (isEntry || f.kind == INTERNAL) && StackRegsNone(c.target, st.regs)
    ensures StackRegsNone(c.target, SetupFrag(c.target, st, f, isEntry).regs)
  {
    SetupIs(c, st, f0, f, isEntry);
    if isEntry {
      StdEntryRegsAre(c.target, st.regs, NUM_REGS);
    } else {
      FragEntryRegsAre(c.target, st.regs, st.blocks[ArmBB(f.body)].phis, |MachineRegs(c.target)|);
    }
  }

  lemma SetupVars(c: Context, st: Builder, f0: Frag, f: Frag, isEntry: bool)
    requires st.Ok() && CreatedFrag(c, st, f0, f) && (isEntry || f.kind == INTERNAL)
    ensures NoDup(f.params) ==> SetupFrag(c.target, st, f, isEntry).vMap.Keys == Elems(f.params)
  {
    SetupIs(c, st, f0, f, isEntry);
    var phis := st.blocks[ArmBB(f.body)].phis;
    if NoDup(f.params) {
      assert f.params[..|f.params|] == f.params;
      BindParamsBinds(f.params, if isEntry then EntryParams(c.target, f)
        else PhiParams(c.target, phis, |f.params|), |f.params|);
    }
  }

  /** Generating one fragment leaves the later ones untouched. */
  lemma CreatedFragKept(c: Context, st: Builder, st': Builder, own: set<nat>, f0: Frag, f: Frag)
    requires CreatedFrag(c, st, f0, f) && BlocksGrow(st.blocks, st'.blocks) && st.next <= st'.next
    requires st'.frags == st.frags
    requires forall b :: 0 <= b < |st.blocks| && b !in own ==>
      st'.blocks[b].body == st.blocks[b].body && st'.blocks[b].term == st.blocks[b].term
    requires forall b :: b in own ==> !(ArmBB(f.body) <= b < End(f))
    ensures CreatedFrag(c, st', f0, f)
  {
    var b := ArmBB(f.body);
    assert BlockGrows(st.blocks[b], st'.blocks[b]);
    forall x | b + 1 <= x < End(f) ensures st'.blocks[x] == EMPTY_BLOCK {
      assert BlockGrows(st.blocks[x], st'.blocks[x]);
      assert st.blocks[x] == EMPTY_BLOCK;
    }
  }

  /** The state after generating fragments below i. */
  function Gen(c: Context, st: Builder, fs: seq<Frag>, i: nat): (r: Builder)
    requires st.Ok() && |c.target.stkOffset| == NUM_REGS && i <= |fs|
    ensures r.Ok()
  {
    GenFrags(c.target, c.clusters, st, fs, i)
  }

  /** What generating one fragment does to the function as a whole. */
  ghost predicate FragGrows(st: Builder, st': Builder, f: Frag) {
    && BlocksGrow(st.blocks, st'.blocks) && st.next <= st'.next && st'.frags == st.frags
    && (forall b :: 0 <= b < |st.blocks| && !(ArmBB(f.body) <= b < End(f)) ==>
          st'.blocks[b].body == st.blocks[b].body && st'.blocks[b].term == st.blocks[b].term)
    && Finished(st', ArmBB(f.body), End(f)) && Finished(st', |st.blocks|, |st'.blocks|)
  }

  lemma GenFragGrows(c: Context, st: Builder, fs0: seq<Frag>, fs: seq<Frag>, i: nat)
    requires Pending(c, st, fs0, fs, i) && i < |fs| && (i == 0 || fs[i].kind == INTERNAL) && WellScopedFrag(c, fs0[i])
    ensures var st' := GenFrag(c.target, c.clusters, st, fs[i], i == 0);
      FragGrows(st, st', fs[i]) && WellPhied(c, st') && Linked(st') && StackRegsNone(c.target, st'.regs)
  {
    hide *;
    var f := fs[i];
    var b, n := ArmBB(f.body), NumArms(f.body.body);
    BodyStart(c, st, fs0, fs, i);
    BodyReady(c, st, fs0, fs, i);
    var st1 := SetupFrag(c.target, st, f, i == 0);
    var st' := GenStm(c.target, c.clusters, st1, f.body.body);
    GenStmCompletes(c.target, c.clusters, st1, f.body.body, b + 1);
    GenStmPhis(c, c.clusters, st1, f.body.body, Elems(f.params), b + 1);
    CompletesFrag(st, st1, st', f, n);
  }

  /** What generating a fragment's body relies on. */
  lemma BodyReady(c: Context, st: Builder, fs0: seq<Frag>, fs: seq<Frag>, i: nat)
    requires Pending(c, st, fs0, fs, i) && i < |fs| && (i == 0 || fs[i].kind == INTERNAL) && WellScopedFrag(c, fs0[i])
    ensures var f := fs[i]; var b, n := ArmBB(f.body), NumArms(f.body.body);
      var st1 := SetupFrag(c.target, st, f, i == 0);
      && Steady(c, st1, b + 1, n) && Ready(st1, b + 1, n) && Numbered(f.body.body, b + 1)
      && Scoped(c, f.body.body, Elems(f.params)) && JumpsKnown(f.body.body, st1.frags.Keys)
      && StackRegsNone(c.target, st1.regs)
      && st1.blocks == st.blocks && b < |st.blocks| && st1.next == st.next && End(f) == b + 1 + n
  {
    BodyStart(c, st, fs0, fs, i);
    SetupSteady(c, st, fs0, fs, i);
    BodyScoped(c, st, fs0[i], fs[i]);
    var st1 := SetupFrag(c.target, st, fs[i], i == 0);
    assert c.arity.Keys <= st1.frags.Keys;
    hide Pending, SetupFrag, CreatedFrag, WellScopedFrag, Numbered, NumArms, Scoped, UniqueBinders, StackRegsNone,
      Binders, JumpsKnown, WellPhied;
    ScopedJumps(c, fs[i].body.body, Elems(fs[i].params), st1.frags.Keys);
  }

  lemma CompletesFrag(st: Builder, st1: Builder, st': Builder, f: Frag, n: nat)
    requires st1.blocks == st.blocks && st1.cur == ArmBB(f.body) < |st.blocks| && st1.next == st.next
    requires st1.frags == st.frags
    requires End(f) == ArmBB(f.body) + 1 + n && Completes(st1, st', ArmBB(f.body) + 1, n)
    ensures FragGrows(st, st', f)
    ensures forall t: TargetInfo :: StackRegsNone(t, st1.regs) ==> StackRegsNone(t, st'.regs)
  {}

  lemma GenFragPending(c: Context, st: Builder, fs0: seq<Frag>, fs: seq<Frag>, i: nat)
    requires Pending(c, st, fs0, fs, i) && i < |fs| && (i == 0 || fs[i].kind == INTERNAL) && WellScopedFrag(c, fs0[i])
    ensures Pending(c, GenFrag(c.target, c.clusters, st, fs[i], i == 0), fs0, fs, i + 1)
  {
    GenFragGrows(c, st, fs0, fs, i);
    var st' := GenFrag(c.target, c.clusters, st, fs[i], i == 0);
    hide GenFrag, WellPhied, CreatedFrag, StackRegsNone;
    forall j | i + 1 <= j < |fs| ensures CreatedFrag(c, st', fs0[j], fs[j]) {
      CreatedFragKept(c, st, st', Range(ArmBB(fs[i].body), End(fs[i])), fs0[j], fs[j]);
    }
  }

  /** A cluster whose blocks have been created and whose text is well scoped. */
  ghost predicate Prepared(c: Context, cl: Cluster, st: Builder, fs: seq<Frag>) {
    WellScoped(c, cl) && Pending(c, st, cl.frags, fs, 0)
  }

  lemma KindsKept(c: Context, cl: Cluster, st: Builder, fs: seq<Frag>, i: nat)
    requires Prepared(c, cl, st, fs) && i < |fs|
    ensures fs[i] == cl.frags[i].(body := fs[i].body) && (i > 0 ==> fs[i].kind == INTERNAL)
    ensures WellScopedFrag(c, cl.frags[i])
  {
    assert CreatedFrag(c, st, cl.frags[i], fs[i]);
  }

  lemma PreparedOk(c: Context, cl: Cluster, st: Builder, fs: seq<Frag>)
    requires Prepared(c, cl, st, fs)
    ensures st.Ok() && |c.target.stkOffset| == NUM_REGS && |fs| == |cl.frags|
  {}

  lemma GenUnfold(c: Context, st: Builder, fs: seq<Frag>, i: nat)
    requires st.Ok() && |c.target.stkOffset| == NUM_REGS && i <= |fs|
    ensures Gen(c, st, fs, i) == if i == 0 then st
      else GenFrag(c.target, c.clusters, Gen(c, st, fs, i - 1), fs[i - 1], i == 1)
  {}

  lemma PreparedStart(c: Context, cl: Cluster, st: Builder, fs: seq<Frag>)
    requires Prepared(c, cl, st, fs)
    ensures Pending(c, st, cl.frags, fs, 0)
  {}

  lemma {:induction false} GenPending(c: Context, cl: Cluster, st: Builder, fs: seq<Frag>, i: nat)
    requires Prepared(c, cl, st, fs) && i <= |fs|
    ensures Pending(c, Gen(c, st, fs, i), cl.frags, fs, i)
  {
    hide *;
    PreparedOk(c, cl, st, fs);
    GenUnfold(c, st, fs, i);
    if i > 0 {
      GenPending(c, cl, st, fs, i - 1);
      KindsKept(c, cl, st, fs, i - 1);
      GenFragPending(c, Gen(c, st, fs, i - 1), cl.frags, fs, i - 1);
    } else {
      PreparedStart(c, cl, st, fs);
    }
  }

  lemma GenStep(c: Context, cl: Cluster, st: Builder, fs: seq<Frag>, j: nat)
    requires Prepared(c, cl, st, fs) && j < |fs| && st.Ok() && |c.target.stkOffset| == NUM_REGS
    ensures BlocksGrow(Gen(c, st, fs, j).blocks, Gen(c, st, fs, j + 1).blocks)
    ensures Gen(c, st, fs, j).frags == Gen(c, st, fs, j + 1).frags
  {
    hide GenFrag, BlocksGrow, WellScopedFrag;
    GenPending(c, cl, st, fs, j);
    KindsKept(c, cl, st, fs, j);
    hide Pending, Prepared;
    GenFragGrows(c, Gen(c, st, fs, j), cl.frags, fs, j);
  }

  lemma {:induction false} GenIncluded(c: Context, cl: Cluster, st: Builder, fs: seq<Frag>, i: nat, j: nat)
    requires Prepared(c, cl, st, fs) && i <= j <= |fs|
    ensures BlocksGrow(Gen(c, st, fs, i).blocks, Gen(c, st, fs, j).blocks)
    ensures Gen(c, st, fs, i).frags == Gen(c, st, fs, j).frags
    decreases j
  {
    hide *;
    PreparedOk(c, cl, st, fs);
    if i < j {
      GenIncluded(c, cl, st, fs, i, j - 1);
      GenStep(c, cl, st, fs, j - 1);
      BlocksGrowTrans(Gen(c, st, fs, i).blocks, Gen(c, st, fs, j - 1).blocks, Gen(c, st, fs, j).blocks);
    } else {
      GrowsRefl(Gen(c, st, fs, i));
    }
  }

  lemma GrowsRefl(st: Builder)
    ensures BlocksGrow(st.blocks, st.blocks)
  {
    forall b | 0 <= b < |st.blocks| ensures BlockGrows(st.blocks[b], st.blocks[b]) {}
  }

  // ----- one fragment -----

  /** A fragment that has been set up satisfies what its body's simulation relies on. */
  lemma BodyStatic(c: Context, st: Builder, fs0: seq<Frag>, fs: seq<Frag>, i: nat)
    requires Pending(c, st, fs0, fs, i) && i < |fs| && (i == 0 || fs[i].kind == INTERNAL) && WellScopedFrag(c, fs0[i])
    ensures Static(c, SetupFrag(c.target, st, fs[i], i == 0), fs[i].body.body, Elems(fs[i].params),
      ArmBB(fs[i].body) + 1)
  {
    BodyStart(c, st, fs0, fs, i);
    SetupSteady(c, st, fs0, fs, i);
    BodyScoped(c, st, fs0[i], fs[i]);
    hide Pending, SetupFrag, CreatedFrag, WellScopedFrag, Steady, Numbered, NumArms, Scoped, UniqueBinders,
      StackRegsNone, Binders;
  }

  lemma BodyScoped(c: Context, st: Builder, f0: Frag, f: Frag)
    requires CreatedFrag(c, st, f0, f) && WellScopedFrag(c, f0)
    ensures Scoped(c, f.body.body, Elems(f.params)) && UniqueBinders(f.body.body)
    ensures Binders(f.body.body) !! Elems(f.params)
  {
    InitBinders(ArmBB(f.body) + 1, f0.body.body);
    InitScoped(c, ArmBB(f.body) + 1, f0.body.body, Elems(f0.params));
  }

  lemma CreatedBody(sem: Semantics, c: Context, st: Builder, f0: Frag, f: Frag, args: seq<Word>, regs: seq<Word>,
                    mem: Mem)
    requires CreatedFrag(c, st, f0, f) && |args| == |f.params| && |regs| == NUM_REGS
    ensures sem.Enter(f0, args, regs, mem)
      == sem.Run(SState(BindAll(map[], f.params, args, |args|), regs, mem), f.body.body)
  {
    InitRuns(sem, ArmBB(f.body) + 1, f0.body.body, SState(BindAll(map[], f.params, args, |args|), regs, mem));
  }

  /** Where a fragment's code starts. */
  lemma BodyStart(c: Context, st: Builder, fs0: seq<Frag>, fs: seq<Frag>, i: nat)
    requires Pending(c, st, fs0, fs, i) && i < |fs| && (i == 0 || fs[i].kind == INTERNAL) && WellScopedFrag(c, fs0[i])
    ensures |fs0| == |fs| && st.Ok() && |c.target.stkOffset| == NUM_REGS && NoDup(fs[i].params)
    ensures CreatedFrag(c, st, fs0[i], fs[i])
    ensures GenFrag(c.target, c.clusters, st, fs[i], i == 0)
      == GenStm(c.target, c.clusters, SetupFrag(c.target, st, fs[i], i == 0), fs[i].body.body)
    ensures var st1 := SetupFrag(c.target, st, fs[i], i == 0);
      st1.Ok() && st1.cur == ArmBB(fs[i].body) && st1.blocks[st1.cur].body == [] && st1.frags == st.frags
  {
    assert CreatedFrag(c, st, fs0[i], fs[i]);
    SetupSteady(c, st, fs0, fs, i);
  }

  lemma StartsSized(m: Machine, st: Builder, f: Frag, args: seq<Word>, regs: seq<Word>, mem: Mem, ts: TState)
    requires StartsWith(m, st, f, args, regs, mem, ts)
    ensures |args| == |f.params| && |regs| == NUM_REGS
  {}

  lemma FragBodySim(sem: Semantics, c: Context, m: Machine, st: Builder, fs0: seq<Frag>, fs: seq<Frag>, i: nat,
                    args: seq<Word>, regs: seq<Word>, mem: Mem, ts: TState) returns (r: Result)
    requires Same(sem, c, m) && Pending(c, st, fs0, fs, i) && i < |fs| && (i == 0 || fs[i].kind == INTERNAL)
    requires WellScopedFrag(c, fs0[i])
    requires Includes(m, GenFrag(c.target, c.clusters, st, fs[i], i == 0))
    requires StartsWith(m, SetupFrag(c.target, st, fs[i], i == 0), fs[i], args, regs, mem, ts)
    requires ts.block == ArmBB(fs[i].body) && ts.ix == 0
    ensures Leads(m, ts, r) && Agrees(m, st.frags, sem.Enter(fs0[i], args, regs, mem), r)
  {
    hide *;
    BodyStart(c, st, fs0, fs, i);
    var f := fs[i];
    var st1 := SetupFrag(c.target, st, f, i == 0);
    BodyStatic(c, st, fs0, fs, i);
    StartsSized(m, st1, f, args, regs, mem, ts);
    StartMatches(m, st1, f, args, regs, mem, ts);
    CreatedBody(sem, c, st, fs0[i], f, args, regs, mem);
    r := StmSim(sem, c, m, st1, f.body.body, Elems(f.params), ArmBB(f.body) + 1,
      SState(BindAll(map[], f.params, args, |args|), regs, mem), ts);
  }

  /** From an internal fragment's block, control goes where the source says. */
  lemma InternalFragSim(sem: Semantics, c: Context, cl: Cluster, m: Machine, st: Builder, fs: seq<Frag>, i: nat,
                        args: seq<Word>, regs: seq<Word>, mem: Mem, ts: TState) returns (r: Result)
    requires Same(sem, c, m) && Prepared(c, cl, st, fs) && 0 < i < |fs| && m.blocks == Gen(c, st, fs, |fs|).blocks
    requires Setting(m)
    requires |args| == |fs[i].params| && AtFrag(m, ArmBB(fs[i].body), args, regs, mem, ts)
    ensures Leads(m, ts, r) && Agrees(m, st.frags, sem.Enter(cl.frags[i], args, regs, mem), r)
  {
    var st1 := Gen(c, st, fs, i);
    GenPending(c, cl, st, fs, i);
    KindsKept(c, cl, st, fs, i);
    GenIncluded(c, cl, st, fs, i + 1, |fs|);
    GenIncluded(c, cl, st, fs, i, |fs|);
    GenIncluded(c, cl, st, fs, 0, i);
    assert CreatedFrag(c, st1, cl.frags[i], fs[i]);
    assert ts.block == ArmBB(fs[i].body) && ts.ix == 0;
    hide CreatedFrag, AtFrag, GenFrag, Agrees, Leads, Setting, SetupFrag, BlocksGrow;
    SetupInternal(m, c, st1, cl.frags[i], fs[i], args, regs, mem, ts);
    r := FragBodySim(sem, c, m, st1, cl.frags, fs, i, args, regs, mem, ts);
  }

  /** From the entry block, called by the convention, control goes where the source says. */
  lemma EntryFragSim(sem: Semantics, c: Context, cl: Cluster, m: Machine, st: Builder, fs: seq<Frag>, args: seq<Word>,
                     regs: seq<Word>, mem: Mem, ts: TState) returns (r: Result)
    requires Same(sem, c, m) && Prepared(c, cl, st, fs) && 0 < |fs| && m.blocks == Gen(c, st, fs, |fs|).blocks
    requires Setting(m)
    requires |args| == |fs[0].params| && CalledWith(m, fs[0].kind, args, regs) && SlotsHold(m, regs, ts.frame)
    requires RuntimeIn(m, ts.frame)
    requires ts.mem == mem && ts.block == ArmBB(fs[0].body) && ts.ix == 0
    ensures Leads(m, ts, r) && Agrees(m, st.frags, sem.Enter(cl.frags[0], args, regs, mem), r)
  {
    KindsKept(c, cl, st, fs, 0);
    GenIncluded(c, cl, st, fs, 1, |fs|);
    assert CreatedFrag(c, st, cl.frags[0], fs[0]);
    assert Gen(c, st, fs, 1) == GenFrag(c.target, c.clusters, Gen(c, st, fs, 0), fs[0], true);
    hide CreatedFrag, GenFrag, Agrees, Leads, Setting, SetupFrag, BlocksGrow, CalledWith, SlotsHold, RuntimeIn;
    SetupEntry(m, c, st, cl.frags[0], fs[0], args, regs, mem, ts);
    r := FragBodySim(sem, c, m, st, cl.frags, fs, 0, args, regs, mem, ts);
  }
}
