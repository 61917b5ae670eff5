/** Creating a cluster's blocks before generating code into them changes nothing about what the cluster
    means, and gives every fragment its own stretch of blocks. */
module Creation {
  import opened Common
  import opened CMRegisters
  import opened TargetIR
  import opened CFG
  import opened CodeBuilder
  import opened Growth
  import opened Phis

  // ----- creation keeps the meaning -----

  lemma {:induction false} InitBinders(n: nat, s: Stm)
    ensures Binders(InitStm(n, s).1) == Binders(s)
    ensures UniqueBinders(s) ==> UniqueBinders(InitStm(n, s).1)
    decreases s
  {
    match s
    case LET(_, _, k) => InitBinders(n, k);
    case ALLOC(_, _, _, k) => InitBinders(n, k);
    case SWITCH(_, arms) => InitArmBinders(n, arms);
    case BRANCH(_, _, a, b) =>
      InitBinders(n + 1, a.body);
      InitBinders(InitStm(n + 1, a.body).0 + 1, b.body);
    case ARITH(_, _, _, k) => InitBinders(n, k);
    case SETTER(_, _, k) => InitBinders(n, k);
    case CALLGC(_, _, k) => InitBinders(n, k);
    case _ =>
  }

  lemma InitArmsSplit(n: nat, arms: seq<Arm>)
    requires arms != []
    ensures var front, last := arms[..|arms| - 1], arms[|arms| - 1]; var arms' := InitArms(n, arms).1;
      && last.body < last
      && arms'[..|arms'| - 1] == InitArms(n, front).1
      && arms'[|arms'| - 1].body == InitStm(InitArms(n, front).0 + 1, last.body).1
  {
    var last := arms[|arms| - 1];
    assert last.body < last;
  }

  lemma {:induction false} InitArmBinders(n: nat, arms: seq<Arm>)
    ensures ArmBinders(InitArms(n, arms).1) == ArmBinders(arms)
    ensures UniqueArmBinders(arms) ==> UniqueArmBinders(InitArms(n, arms).1)
    decreases arms
  {
    if arms != [] {
      var front, last := arms[..|arms| - 1], arms[|arms| - 1];
      InitArmsSplit(n, arms);
      InitArmBinders(n, front);
      InitBinders(InitArms(n, front).0 + 1, last.body);
      ArmBindersUnfold(arms);
      ArmBindersUnfold(InitArms(n, arms).1);
    }
  }

  lemma ArmBindersUnfold(arms: seq<Arm>)
    requires arms != []
    ensures var front, last := arms[..|arms| - 1], arms[|arms| - 1];
      && last.body < last && ArmBinders(arms) == ArmBinders(front) + Binders(last.body)
      && (UniqueArmBinders(arms) <==>
        UniqueArmBinders(front) && UniqueBinders(last.body) && ArmBinders(front) !! Binders(last.body))
  {
    var last := arms[|arms| - 1];
    assert last.body < last;
  }

  lemma {:induction false} InitScoped(c: Context, n: nat, s: Stm, scope: set<LVar>)
    requires Scoped(c, s, scope)
    ensures Scoped(c, InitStm(n, s).1, scope)
    decreases s
  {
    match s
    case LET(_, x, k) => InitScoped(c, n, k, scope + {x});
    case ALLOC(_, _, x, k) => InitScoped(c, n, k, scope + {x});
    case SWITCH(_, arms) => InitScopedArms(c, n, arms, scope);
    case BRANCH(_, _, a, b) =>
      InitScoped(c, n + 1, a.body, scope);
      InitScoped(c, InitStm(n + 1, a.body).0 + 1, b.body, scope);
    case ARITH(_, _, x, k) => InitScoped(c, n, k, scope + {x});
    case SETTER(_, _, k) => InitScoped(c, n, k, scope);
    case CALLGC(_, xs, k) => InitScoped(c, n, k, scope + Elems(xs));
    case _ =>
  }

  lemma ScopedArmsUnfold(c: Context, arms: seq<Arm>, scope: set<LVar>)
    requires arms != []
    ensures var front, last := arms[..|arms| - 1], arms[|arms| - 1];
      last.body < last && (ScopedArms(c, arms, scope) <==> ScopedArms(c, front, scope) && Scoped(c, last.body, scope))
  {
    var last := arms[|arms| - 1];
    assert last.body < last;
  }

  lemma {:induction false} InitScopedArms(c: Context, n: nat, arms: seq<Arm>, scope: set<LVar>)
    requires ScopedArms(c, arms, scope)
    ensures ScopedArms(c, InitArms(n, arms).1, scope)
    decreases arms
  {
    if arms != [] {
      var front, last := arms[..|arms| - 1], arms[|arms| - 1];
      InitArmsSplit(n, arms);
      ScopedArmsUnfold(c, arms, scope);
      InitScopedArms(c, n, front, scope);
      InitScoped(c, InitArms(n, front).0 + 1, last.body, scope);
      ScopedArmsUnfold(c, InitArms(n, arms).1, scope);
    }
  }

  lemma {:induction false} InitRuns(sem: Semantics, n: nat, s: Stm, src: SState)
    requires |src.regs| == NUM_REGS
    ensures sem.Run(src, InitStm(n, s).1) == sem.Run(src, s)
    decreases s
  {
    match s
    case LET(e, x, k) => InitRuns(sem, n, k, src.(env := src.env[x := sem.Exp(e, src)]));
    case ALLOC(op, args, x, k) =>
      if AllocArity(op, |args|) {
        var (obj, s1) := sem.Alloc(op, sem.Exps(args, src), src);
        InitRuns(sem, n, k, s1.(env := s1.env[x := obj]));
      }
    case SWITCH(e, arms) =>
      var v := sem.Exp(e, src);
      if 0 <= v < |arms| { InitRunsArms(sem, n, arms, v, src); }
    case BRANCH(_, _, a, b) =>
      InitRuns(sem, n + 1, a.body, src);
      InitRuns(sem, InitStm(n + 1, a.body).0 + 1, b.body, src);
    case ARITH(op, args, x, k) =>
      match op {
        case TRAP(o) => InitRuns(sem, n, k, src.(env := src.env[x := sem.prims.arith(o, sem.Exps(args, src)).0]));
        case NOTRAP(o) => InitRuns(sem, n, k, src.(env := src.env[x := sem.prims.pure(o, sem.Exps(args, src))]));
      }
    case SETTER(op, args, k) =>
      if SetterArity(op, |args|) { InitRuns(sem, n, k, sem.Set(op, sem.Exps(args, src), src)); }
    case CALLGC(roots, xs, k) =>
      var r := sem.prims.gc(src.regs, sem.Exps(roots, src), src.mem);
      if |r.regs| == NUM_REGS && |r.roots| >= |xs| {
        InitRuns(sem, n, k, SState(BindAll(src.env, xs, r.roots, |xs|), r.regs, r.mem));
      }
    case _ =>
  }

  lemma {:induction false} InitRunsArms(sem: Semantics, n: nat, arms: seq<Arm>, i: nat, src: SState)
    requires |src.regs| == NUM_REGS && i < |arms|
    ensures sem.Run(src, InitArms(n, arms).1[i].body) == sem.Run(src, arms[i].body)
    decreases arms
  {
    var front, last := arms[..|arms| - 1], arms[|arms| - 1];
    InitArmsSplit(n, arms);
    if i < |front| {
      InitRunsArms(sem, n, front, i, src);
      assert InitArms(n, arms).1[i] == InitArms(n, front).1[i];
    } else {
      InitRuns(sem, InitArms(n, front).0 + 1, last.body, src);
    }
  }

  // ----- the stretches of blocks -----

  /** The first block past a fragment's stretch. */
  function End(f: Frag): nat { ArmBB(f.body) + 1 + NumArms(f.body.body) }

  ghost predicate InOrder(fs: seq<Frag>) {
    forall i, j :: 0 <= i < j < |fs| ==> End(fs[i]) <= ArmBB(fs[j].body)
  }

  /** A fragment whose code has not been generated yet. */
  ghost predicate Pristine(st: Builder, f: Frag) {
    && ArmBB(f.body) < |st.blocks| && st.blocks[ArmBB(f.body)].body == [] && st.blocks[ArmBB(f.body)].term.None?
    && Untouched(st, ArmBB(f.body) + 1, End(f))
  }

  /** The cluster satisfies the generator's assertions: one entry fragment followed by internal ones, unique
      labels, unique variables in each fragment, and bodies that are well scoped. */
  ghost predicate WellScoped(c: Context, cl: Cluster) {
    && |c.target.stkOffset| == NUM_REGS
    && |cl.frags| > 0 && cl.frags[0].kind != INTERNAL
    && (forall i :: 0 < i < |cl.frags| ==> cl.frags[i].kind == INTERNAL)
    && (forall i, j :: 0 <= i < j < |cl.frags| ==> cl.frags[i].lab != cl.frags[j].lab)
    && (forall lab :: lab in c.arity ==>
      exists i :: 0 < i < |cl.frags| && cl.frags[i].lab == lab && c.arity[lab] == |cl.frags[i].params|)
    && (forall i :: 0 <= i < |cl.frags| ==> WellScopedFrag(c, cl.frags[i]))
  }

  ghost predicate WellScopedFrag(c: Context, f: Frag) {
    && NoDup(f.params) && UniqueBinders(f.body.body) && Elems(f.params) !! Binders(f.body.body)
    && Scoped(c, f.body.body, Elems(f.params))
  }

  function Labels(fs: seq<Frag>): set<LVar> { set f | f in fs :: f.lab }

  /** After block creation. */
  ghost predicate Created(c: Context, st: Builder, fs0: seq<Frag>, fs: seq<Frag>) {
    && |fs| == |fs0|
    && (forall i :: 0 <= i < |fs| ==> CreatedFrag(c, st, fs0[i], fs[i]))
    && InOrder(fs)
    && PhisExact(st.blocks) && EdgesInside(st.blocks) && st.ovf.None?
    && st.frags.Keys == Labels(fs0)
    && (forall lab :: lab in st.frags ==> st.frags[lab] < |st.blocks|)
  }

  ghost predicate CreatedFrag(c: Context, st: Builder, f0: Frag, f: Frag) {
    && |c.target.stkOffset| == NUM_REGS
    && f == f0.(body := f.body) && f.body.bb.Some?
    && f.body.body == InitStm(f.body.bb.value + 1, f0.body.body).1
    && End(f) <= |st.blocks| && Pristine(st, f)
    && f.lab in st.frags && st.frags[f.lab] == f.body.bb.value
    && (f.kind == INTERNAL ==>
          var phis := st.blocks[f.body.bb.value].phis;
          && |phis| == |MachineRegs(c.target)| + |f.params| && DistinctPhis(phis)
          && forall i :: 0 <= i < |phis| ==> phis[i].dst < st.next)
  }

  /** Blocks, names and labels added later do not disturb a fragment. */
  lemma CreatedFragLater(c: Context, st: Builder, st': Builder, f0: Frag, f: Frag)
    requires CreatedFrag(c, st, f0, f)
    requires |st.blocks| <= |st'.blocks| && (forall x :: 0 <= x < |st.blocks| ==> st'.blocks[x] == st.blocks[x])
    requires st.next <= st'.next
    requires forall lab :: lab in st.frags ==> lab in st'.frags && st'.frags[lab] == st.frags[lab]
    ensures CreatedFrag(c, st', f0, f)
  {
    forall x | ArmBB(f.body) + 1 <= x < End(f) ensures st'.blocks[x] == EMPTY_BLOCK {
      assert st.blocks[x] == EMPTY_BLOCK;
    }
  }

  lemma CreatedFragNew(c: Context, st: Builder, f: Frag)
    requires |c.target.stkOffset| == NUM_REGS && f.lab !in st.frags
    ensures var (st', f') := InitFrag(c.target, st, f);
      CreatedFrag(c, st', f, f') && End(f') == |st'.blocks| && ArmBB(f'.body) == |st.blocks|
  {
    InitNumbers(|st.blocks| + 1, f.body.body);
  }

  lemma InitFragAdds(t: TargetInfo, st: Builder, f: Frag)
    requires |t.stkOffset| == NUM_REGS && f.lab !in st.frags
    ensures var st' := InitFrag(t, st, f).0;
      && |st.blocks| <= |st'.blocks| && (forall x :: 0 <= x < |st.blocks| ==> st'.blocks[x] == st.blocks[x])
      && st.next <= st'.next && st'.frags == st.frags[f.lab := |st.blocks|] && st'.ovf == st.ovf
      && (forall x :: |st.blocks| <= x < |st'.blocks| ==>
            st'.blocks[x].term.None?
              && forall i :: 0 <= i < |st'.blocks[x].phis| ==> st'.blocks[x].phis[i].incoming == [])
  {}

  lemma InitFragCreates(c: Context, st: Builder, fs0: seq<Frag>, fs: seq<Frag>, f: Frag)
    requires Created(c, st, fs0, fs) && |c.target.stkOffset| == NUM_REGS && f.lab !in Labels(fs0)
    requires forall i :: 0 <= i < |fs| ==> End(fs[i]) <= |st.blocks|
    ensures var (st', f') := InitFrag(c.target, st, f);
      && Created(c, st', fs0 + [f], fs + [f'])
      && forall i :: 0 <= i < |fs + [f']| ==> End((fs + [f'])[i]) <= |st'.blocks|
  {
    var (st', f') := InitFrag(c.target, st, f);
    CreatedParts(c, st, fs0, fs);
    InitFragAdds(c.target, st, f);
    CreatedFragNew(c, st, f);
    InitFragBlocks(st, st', |st.blocks|);
    LabelsSnoc(fs0, f);
    hide *;
    forall i | 0 <= i < |fs + [f']| ensures CreatedFrag(c, st', (fs0 + [f])[i], (fs + [f'])[i]) {
      if i < |fs| {
        CreatedFragLater(c, st, st', fs0[i], fs[i]);
      }
    }
    InOrderSnoc(fs, f');
    assert st'.frags.Keys == st.frags.Keys + {f.lab};
    MakeCreated(c, st', fs0 + [f], fs + [f']);
  }

  lemma CreatedParts(c: Context, st: Builder, fs0: seq<Frag>, fs: seq<Frag>)
    requires Created(c, st, fs0, fs)
    ensures |fs| == |fs0| && (forall i :: 0 <= i < |fs| ==> CreatedFrag(c, st, fs0[i], fs[i])) && InOrder(fs)
    ensures PhisExact(st.blocks) && EdgesInside(st.blocks) && st.ovf.None? && st.frags.Keys == Labels(fs0)
    ensures forall lab :: lab in st.frags ==> st.frags[lab] < |st.blocks|
  {}

  lemma MakeCreated(c: Context, st: Builder, fs0: seq<Frag>, fs: seq<Frag>)
    requires |fs| == |fs0| && (forall i :: 0 <= i < |fs| ==> CreatedFrag(c, st, fs0[i], fs[i])) && InOrder(fs)
    requires PhisExact(st.blocks) && EdgesInside(st.blocks) && st.ovf.None? && st.frags.Keys == Labels(fs0)
    requires forall lab :: lab in st.frags ==> st.frags[lab] < |st.blocks|
    ensures Created(c, st, fs0, fs)
  {}

  lemma InOrderSnoc(fs: seq<Frag>, f: Frag)
    requires InOrder(fs) && forall i :: 0 <= i < |fs| ==> End(fs[i]) <= ArmBB(f.body)
    ensures InOrder(fs + [f])
  {
    hide End;
  }

  lemma LabelsSnoc(fs: seq<Frag>, f: Frag)
    ensures Labels(fs + [f]) == Labels(fs) + {f.lab}
  {
    assert forall g :: g in fs + [f] <==> g in fs || g == f;
  }

  /** New blocks without terminators add no edges. */
  lemma InitFragBlocks(st: Builder, st': Builder, b: nat)
    requires PhisExact(st.blocks) && EdgesInside(st.blocks) && b == |st.blocks| <= |st'.blocks|
    requires forall x :: 0 <= x < b ==> st'.blocks[x] == st.blocks[x]
    requires forall x :: b <= x < |st'.blocks| ==>
      st'.blocks[x].term.None? && forall i :: 0 <= i < |st'.blocks[x].phis| ==> st'.blocks[x].phis[i].incoming == []
    ensures PhisExact(st'.blocks) && EdgesInside(st'.blocks)
    decreases |st'.blocks| - b
  {
    if b < |st'.blocks| {
      var st1 := st.(blocks := st.blocks + [st'.blocks[b]]);
      AppendEdges(st.blocks, st'.blocks[b]);
      InitFragBlocks(st1, st', b + 1);
    } else {
      assert st'.blocks == st.blocks;
    }
  }

  lemma InitFragsSnoc(t: TargetInfo, fs: seq<Frag>)
    requires |t.stkOffset| == NUM_REGS && fs != []
    ensures var front, last := fs[..|fs| - 1], fs[|fs| - 1];
      var (st1, fs1) := InitFrags(t, InitialBuilder(), front); var (st2, f2) := InitFrag(t, st1, last);
      InitFrags(t, InitialBuilder(), fs) == (st2, fs1 + [f2])
  {
    hide InitFrag;
  }

  lemma LastIsNew(fs: seq<Frag>)
    requires fs != [] && forall i, j :: 0 <= i < j < |fs| ==> fs[i].lab != fs[j].lab
    ensures fs[|fs| - 1].lab !in Labels(fs[..|fs| - 1])
  {}

  lemma NothingCreated(c: Context)
    requires |c.target.stkOffset| == NUM_REGS
    ensures InitFrags(c.target, InitialBuilder(), []) == (InitialBuilder(), []) && Created(c, InitialBuilder(), [], [])
  {}

  lemma {:induction false} InitFragsCreate(c: Context, fs: seq<Frag>)
    requires |c.target.stkOffset| == NUM_REGS
    requires forall i, j :: 0 <= i < j < |fs| ==> fs[i].lab != fs[j].lab
    ensures var (st, fs') := InitFrags(c.target, InitialBuilder(), fs);
      Created(c, st, fs, fs') && forall i :: 0 <= i < |fs'| ==> End(fs'[i]) <= |st.blocks|
  {
    hide *;
    if fs == [] {
      NothingCreated(c);
    } else {
      var front, last := fs[..|fs| - 1], fs[|fs| - 1];
      InitFragsCreate(c, front);
      InitFragsSnoc(c.target, fs);
      LastIsNew(fs);
      var (st1, fs1) := InitFrags(c.target, InitialBuilder(), front);
      assert fs == front + [last];
      InitFragCreates(c, st1, front, fs1, last);
    }
  }
}
